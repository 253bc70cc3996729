# baobei-needs: a Dafny model of the per-tick gameplay logic

baobei-needs is a small Bevy game. Didi, the player, walks around a room. Baobei, the
companion, has a happiness value that decays over time. This project models the
per-tick decision logic of four source files and proves properties of it:

- **Happiness** (`src/gameplay/happiness.rs`, module `GameplayHappiness`). The value is
  a `Happiness` class whose field `value` is updated in place. It starts at 1.0 (`Happy`)
  and changes only through `Add`/`Sub`. Both clamp to [0, 1] whatever the prior value is.
  `DecreaseHappinessSystem` loops over every component and subtracts a decrease when the
  repeating one-second timer has just finished. The sprite slot is the Rust cast
  `(h * n) as u32`, modelled as a saturating truncation (`AsU32`). The lemmas give the
  closed form of repeated decay and the bounds of the sprite index. At full happiness
  the index is `n`, one past the last slot of an `n`-slot atlas (`SpriteIndexRange`).
- **Controllers** (`src/controllers.rs`, module `Controllers`).
  - `KeyboardSystem` sums the held arrows step by step. It sends one normalised
    direction when the sum is non-zero and nothing otherwise.
  - The gamepad lobby is a class holding a `set`. `ConnectionSystem` inserts into it
    and removes from it.
  - `GamepadSystem` sends one event for each connected gamepad whose two stick axes
    are both non-zero. This is the source's rule: a deflection along a single axis
    sends nothing.
- **Movement and the event-scanning return to the menu** (`src/gameplay.rs`, module
  `Gameplay`). Every direction event of the tick adds `direction * dt * speed` to every
  position tagged `Didi`. The net effect is the sum `Displacement`. Every raw Escape
  *press* event requests the menu and unwraps the result. The first request of a tick
  in game succeeds. A second one in the same tick finds the menu already queued, is
  refused, and the unwrap aborts the program (`aborted`).
- **The gameplay plugin** (`src/gameplay/mod.rs`, module `GameplayMod`). Here the menu is
  requested when Escape was *just pressed*, so a held Escape does not request it
  again. The request is made at most once per frame, so in game with no mode queued it
  is never refused. The pick-and-drop cooldown is set to 0.2 s (`PICK_AND_DROP_COOLDOWN_SECONDS`).
- **Mode gating** (module `Schedule`). Each plugin registers its systems for `InGame`
  only. `GameplayStage` runs the modelled systems when the mode is `InGame`. In `Menu`
  it changes nothing. It pairs the just-pressed return to the menu of
  `src/gameplay/mod.rs` with the movement system of `src/gameplay.rs`, which stands in
  for the `movement` module's system that `src/gameplay/mod.rs` registers.

The engine's own pieces are stand-ins, stated as what the systems rely on:
- `Vectors`: `Vec3` over `real`. `IsNormalizer` says what `Vec3::normalize` promises:
  unit length, the same line and the same direction.
- `KeyboardInput`: the `Input<KeyCode>` press/release/clear rules.
- `States`: `GameState` and the `State` resource. Its `set_next` refuses the mode that
  is already current and refuses any request while another next mode is queued.

`Vec3::normalize` is a function parameter `normalize`. The timer's "just finished"
result is a boolean input. `SPEED` and `HAPPINESS_DECREASE` are defined in
`src/constants.rs`, which is not part of this model, so they are parameters (`speed`,
`decrease`). The frame time is the parameter `dt`.

Notes on behaviour:
- The movement system adds every direction event of the tick, in order.
- The keyboard and each gamepad each send their own event, so a tick can carry several.
- The sprite index is `n`, one past the last slot, at happiness 1.0.
- Two Escape press events in one tick (press, release, press) make the event-scanning
  return to the menu unwrap a refused request, which aborts the program.
- The happiness reward on delivery belongs to the items module, which is not part of
  this model.

## Model

| member | source | states |
|---|---|---|
| GameplayHappiness.Happiness.Happy | src/gameplay/happiness.rs:36-38 | a new component has happiness exactly 1.0, inside [0, 1] |
| GameplayHappiness.AddClamped | src/gameplay/happiness.rs:41-51 | the result lies in [0, 1] for any prior value and any addend; it is exactly `h + v` when that is in [0, 1], 1.0 above and 0.0 below |
| GameplayHappiness.AddClampedIsNearest | src/gameplay/happiness.rs:44-50 | the clamped value is the point of [0, 1] closest to the unclamped sum |
| GameplayHappiness.Happiness.Add | src/gameplay/happiness.rs:41-51 | after `add(v)` the field is the clamped sum of its old value and `v`, and lies in [0, 1] |
| GameplayHappiness.Happiness.Sub | src/gameplay/happiness.rs:54-56 | `sub(v)` has the effect of `add(-v)` and leaves the value in [0, 1] |
| GameplayHappiness.DecreaseHappinessSystem | src/gameplay/happiness.rs:104-115 | when the timer has not just finished no value changes; when it has, every component is decreased by the decrease with clamping and ends in [0, 1]; only the components change |
| GameplayHappiness.DecayedClosedForm | src/gameplay/happiness.rs:109-114 | after `k` firings a value in [0, 1] is `h - k * decrease`, or 0 once that is negative |
| GameplayHappiness.DecayedReachesZero | src/gameplay/happiness.rs:109-114 | with a positive decrease the happiness reaches exactly 0 once `k * decrease >= h` |
| GameplayHappiness.AsU32 | src/gameplay/happiness.rs:95-96 | the `as u32` cast gives 0 for non-positive inputs, the u32 maximum for inputs at or above it, and the truncation of in-range inputs |
| GameplayHappiness.SpriteIndex | src/gameplay/happiness.rs:92-96 | the index is the truncation of happiness times the atlas size, never above the u32 maximum, and 0 for an empty atlas or a non-positive product |
| GameplayHappiness.SpriteIndexRange | src/gameplay/happiness.rs:92-98 | for happiness in [0, 1] the index lies in [0, n] and equals n (one past the last atlas slot) exactly when happiness is 1.0 |
| GameplayHappiness.UpdateHappinessSpriteSystem | src/gameplay/happiness.rs:84-101 | with no changed happiness no sprite index changes; otherwise every sprite gets the index of the last changed value for its own atlas size |
| Controllers.ArrowVector | src/controllers.rs:29-42 | the pre-normalised vector has x and y in {-1, 0, 1} and z = 0 |
| Controllers.ArrowVectorIsZero | src/controllers.rs:29-44 | the arrows cancel out exactly when no arrow or only opposing pairs are held |
| Controllers.KeyboardSystem | src/controllers.rs:25-48 | at most one event per tick; none iff Up/Down and Left/Right each cancel; the event is the normalisation of the non-zero pre-vector, unit length and along it |
| Controllers.SingleAxisArrowDirection | src/controllers.rs:44-46 | with the arrows summing along one axis, the direction sent is exactly that unit axis vector |
| Controllers.DiagonalArrowDirection | src/controllers.rs:44-46 | with two perpendicular arrows, the direction sent has z = 0, squared components 1/2 and the arrows' signs |
| Controllers.GamepadLobby.constructor | src/controllers.rs:50-55 | the lobby starts empty |
| Controllers.ApplyConnection | src/controllers.rs:62-73 | Connected inserts the gamepad, Disconnected removes it, any other event leaves the lobby unchanged |
| Controllers.ConnectionSystem | src/controllers.rs:58-75 | the lobby afterwards is the old lobby with every event of the tick applied in order |
| Controllers.ApplyConnectionIdempotent | src/controllers.rs:62-73 | connecting a present gamepad or disconnecting an absent one changes nothing more |
| Controllers.ConnectionsMembership | src/controllers.rs:62-74 | a gamepad is in the lobby after a tick iff its last connection event was Connected, or it had none and was in before |
| Controllers.GamepadSystem | src/controllers.rs:78-98 | exactly one event per lobby gamepad whose stick x and y are both non-zero (a missing axis counts as 0.0), each carrying the normalised stick vector |
| Controllers.GamepadDirectionIsPlanarUnit | src/controllers.rs:92-95 | a gamepad direction is the unit-length stick vector with z = 0 |
| Gameplay.MovementSystem | src/gameplay.rs:86-97 | every Didi position moves by the sum over the tick's events of `direction * dt * speed`; other positions are untouched; no events means no movement |
| Gameplay.MoveTagged | src/gameplay.rs:93-95 | one event adds its step to every tagged position and to no other |
| Gameplay.DisplacementConcat | src/gameplay.rs:92-96 | the displacement of two runs of events is the sum of their displacements |
| Gameplay.DisplacementSingle | src/gameplay.rs:94 | one event moves by exactly `direction * dt * speed` |
| Gameplay.BackToMenuOnEscapeEvent | src/gameplay.rs:115-131 | the run aborts iff some Escape press is refused: the first one in the menu or with a mode queued, or any second one in the tick; the menu is queued iff an Escape press arrives in game with nothing queued; releases and other keys do nothing; the current mode is unchanged |
| GameplayMod.BackToMenuSystem | src/gameplay/mod.rs:40-44 | when Escape was just pressed the menu is queued, or the run aborts in the menu or with a mode already queued; otherwise the state is not touched |
| GameplayMod.HeldEscapeRequestsNothing | src/gameplay/mod.rs:41 | Escape held from an earlier frame and not released requests nothing, even with repeated press events |
| GameplayMod.FreshEscapeRequestsMenu | src/gameplay/mod.rs:41-42 | Escape up at the start of the frame and pressed in it requests the menu |
| GameplayMod.RequestsMenuIffPressEvent | src/gameplay/mod.rs:40-43 | with Escape up at the start of the frame, the menu is requested iff an Escape press event arrives, that is iff the event-scanning version counts at least one Escape press |
| GameplayMod.RepeatedPressDiffers | src/gameplay/mod.rs:41 | with Escape held, a repeated press event triggers the event-scanning version but not this one |
| Schedule.SystemsRunning | src/gameplay/mod.rs:32-35 | a system runs in a mode iff it is registered for that mode; with every registration for one mode, all run in order |
| Schedule.InGameOnlyRunsNothingInMenu | src/gameplay/mod.rs:32-35 | systems registered only for InGame never run in Menu |
| Schedule.NoGameplaySystemInMenu | src/gameplay/mod.rs:32-35 | none of the gameplay and happiness systems (nor those of the earlier plugin) runs in Menu; each runs in InGame |
| Schedule.GameplayStage | src/gameplay/mod.rs:32-35 | in Menu, or when the back-to-menu request aborts, the stage changes no state, position, happiness or sprite; otherwise in game it applies the back-to-menu, movement, decrease and sprite systems, a menu request only queues the next mode, no sprite changes unless the timer fired on some component, and each written sprite index lies in [0, n] and is n exactly at happiness 1.0 |

## Left out

- The `items`, `cooldown`, `collisions`, `movement`, `materials` and `constants` modules are not part of this model. That covers pick-up/drop/delivery (`pick_or_drop_system`, `handle_actions_system`), the cooldown primitive, collisions and triggers, and the reward on delivery. The 0.2 s cooldown is only recorded as a constant.
- `src/gameplay/entities.rs` and `src/drawing.rs`: spawning, sprites, layout constants, screen transforms and depth. This is presentation with no decision logic. The same goes for `drawing_position_system`, `update_drawing_position`, `setup_camera`, `spawn_didi` and the materials in `src/gameplay.rs`.
- `spawn_happiness_smiley`, `spawn_debug_text` and `text_update_system` (`format!("{:.2}")`): UI plumbing.
- The `println!` logging in `connection_system`: I/O.
- The texture-atlas lookup and its `unwrap`: asset plumbing. Atlas sizes are given as inputs.
- Bevy's `Timer`: whether the one-second repeating timer just finished is an input.
- `Vec3::normalize` is a parameter. Its promise (`IsNormalizer`) is assumed only by the lemmas that need it.
- f32 rounding, including the `usize as f32` conversion of the atlas size: values are exact reals.
- Schedule.GameplayStage: `src/gameplay/mod.rs` registers `movement::movement_system` from the `movement` module, which is not part of this model; the stage runs the `movement_system` of `src/gameplay.rs` in its place.
- Event buffering and reader cursors, stage order between systems, and the parallel executor. `GameplayStage` runs the systems in registration order.
- The controllers run in the pre-update stage in every mode. Their events while in Menu are not modelled.
- Change detection: a `Happiness` component also counts as changed on the frame it is inserted. `GameplayStage` feeds the sprite system only the values touched by the decrease.
- Applying a queued state change at the start of the next stage run.
- Gamepad button and axis-change events are folded into `OtherGamepadEvent`. Other axis types are folded into `OtherAxis`.
- Controllers.GamepadSystem: the lobby is a hash set, so the order of the events is not determined. The ghost `sources` records the order chosen, and the contract fixes the events only up to that order.
