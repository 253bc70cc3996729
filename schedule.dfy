/**
 * Mode gating of the gameplay systems. Each plugin registers its systems for
 * the `InGame` mode only; a frame's gameplay stage runs them when the current
 * mode is `InGame` and runs nothing in `Menu`. The controllers are registered
 * without a mode and are not part of this stage.
 */
module Schedule {
  import opened Wrappers
  import opened Vectors
  import opened KeyboardInput
  import opened States
  import opened Controllers
  import opened GameplayHappiness
  import Gameplay
  import GameplayMod

  datatype SystemName =
    | BackToMenu | Movement | PickOrDrop | HandleActions
    | DecreaseHappiness | HappinessText | HappinessSprite | DrawingPosition

  /** A system registered to run on each update of the stage while in `mode`. */
  datatype Registration = OnStateUpdate(mode: GameState, system: SystemName)

  /** Registrations of the gameplay plugin (`src/gameplay/mod.rs`). */
  const GameplayPluginSystems: seq<Registration> := [
    OnStateUpdate(InGame, BackToMenu), OnStateUpdate(InGame, Movement),
    OnStateUpdate(InGame, PickOrDrop), OnStateUpdate(InGame, HandleActions)]

  /** Registrations of the earlier gameplay plugin (`src/gameplay.rs`). */
  const EarlierGameplayPluginSystems: seq<Registration> := [
    OnStateUpdate(InGame, BackToMenu), OnStateUpdate(InGame, Movement),
    OnStateUpdate(InGame, DrawingPosition)]

  /** Registrations of the happiness plugin. */
  const HappinessPluginSystems: seq<Registration> := [
    OnStateUpdate(InGame, DecreaseHappiness), OnStateUpdate(InGame, HappinessText),
    OnStateUpdate(InGame, HappinessSprite)]

  /** The systems that run in `mode`, in registration order. */
  function SystemsRunning(registrations: seq<Registration>, mode: GameState): (r: seq<SystemName>)
    ensures |r| <= |registrations|
    ensures forall s :: s in r <==> OnStateUpdate(mode, s) in registrations
    ensures (forall i :: 0 <= i < |registrations| ==> registrations[i].mode == mode) ==>
      |r| == |registrations| && forall i :: 0 <= i < |r| ==> r[i] == registrations[i].system
  {
    if registrations == [] then []
    else
      var rest := SystemsRunning(registrations[1..], mode);
      assert forall reg :: reg in registrations <==> reg == registrations[0] || reg in registrations[1..];
      if registrations[0].mode == mode then [registrations[0].system] + rest else rest
  }

  /** No system registered in game runs in the menu. */
  lemma {:induction false} InGameOnlyRunsNothingInMenu(registrations: seq<Registration>)
    requires forall i :: 0 <= i < |registrations| ==> registrations[i].mode == InGame
    ensures SystemsRunning(registrations, Menu) == []
  {
    if registrations != [] {
      InGameOnlyRunsNothingInMenu(registrations[1..]);
    }
  }

  /** No gameplay system runs in the menu; in game every registered one does. */
  lemma NoGameplaySystemInMenu()
    ensures SystemsRunning(GameplayPluginSystems + HappinessPluginSystems, Menu) == []
    ensures SystemsRunning(EarlierGameplayPluginSystems, Menu) == []
    ensures forall reg :: reg in GameplayPluginSystems + HappinessPluginSystems ==>
      reg.system in SystemsRunning(GameplayPluginSystems + HappinessPluginSystems, InGame)
  {
    var all := GameplayPluginSystems + HappinessPluginSystems;
    InGameOnlyRunsNothingInMenu(all);
    InGameOnlyRunsNothingInMenu(EarlierGameplayPluginSystems);
  }

  /**
   * One gameplay stage of a frame, running the modelled in-game systems in
   * registration order: the return to the menu, movement, the happiness
   * decrease and the happiness sprite. In the menu nothing changes. In game a
   * menu request only queues the next mode, so every system still runs in the
   * frame Escape is pressed; a refused request aborts the program (`aborted`)
   * before the later systems run. The systems it runs are `BackToMenu`,
   * `Movement`, `DecreaseHappiness` and `HappinessSprite`, the modelled members
   * of `SystemsRunning(GameplayPluginSystems + HappinessPluginSystems, state.current)`:
   * all of them in game and none in the menu (`NoGameplaySystemInMenu`).
   */
  method GameplayStage(
    state: State, input: Input,
    directionEvents: seq<DirectionEvent>, dt: real, speed: real, positions: array<Vec3>, isDidi: seq<bool>,
    timerJustFinished: bool, decrease: real, happiness: seq<Happiness>,
    atlasSizes: seq<nat>, spriteIndices: array<nat>)
    returns (aborted: bool)
    requires |isDidi| == positions.Length
    requires |atlasSizes| == spriteIndices.Length
    requires forall i, j :: 0 <= i < j < |happiness| ==> happiness[i] != happiness[j]
    modifies state, positions, happiness, spriteIndices
    ensures state.current == old(state.current)
    ensures aborted <==> old(state.current) == InGame && GameplayMod.RequestsMenu(input) && old(state.next) != None
    ensures old(state.current) == Menu || aborted ==>
      && state.next == old(state.next)
      && positions[..] == old(positions[..])
      && (forall i :: 0 <= i < |happiness| ==> happiness[i].value == old(happiness[i].value))
      && spriteIndices[..] == old(spriteIndices[..])
    ensures old(state.current) == InGame && !aborted ==>
      && state.next == (if GameplayMod.RequestsMenu(input) then Some(Menu) else old(state.next))
      && (forall k :: 0 <= k < positions.Length ==>
            positions[k] == if isDidi[k] then Plus(old(positions[k]), Gameplay.Displacement(directionEvents, dt, speed)) else old(positions[k]))
      && (forall i :: 0 <= i < |happiness| ==>
            happiness[i].value == if timerJustFinished then AddClamped(old(happiness[i].value), -decrease) else old(happiness[i].value))
      && (timerJustFinished && |happiness| > 0 ==> forall j :: 0 <= j < spriteIndices.Length ==>
            spriteIndices[j] == SpriteIndex(happiness[|happiness| - 1].value, atlasSizes[j]))
      && (!timerJustFinished || |happiness| == 0 ==> spriteIndices[..] == old(spriteIndices[..]))
    ensures old(state.current) == InGame && !aborted && timerJustFinished && |happiness| > 0 ==>
      forall j :: 0 <= j < spriteIndices.Length && atlasSizes[j] <= U32_MAX ==>
        && spriteIndices[j] <= atlasSizes[j]
        && (0 < atlasSizes[j] ==> (spriteIndices[j] == atlasSizes[j] <==> happiness[|happiness| - 1].value == 1.0))
  {
    if state.current != InGame {
      return false;
    }
    aborted := GameplayMod.BackToMenuSystem(input, state);
    if aborted {
      return;
    }
    Gameplay.MovementSystem(directionEvents, dt, speed, positions, isDidi);
    DecreaseHappinessSystem(timerJustFinished, decrease, happiness);
    // Every component the decrease touched is marked changed for this frame.
    var changed := if timerJustFinished then seq(|happiness|, i requires 0 <= i < |happiness| reads happiness => happiness[i].value) else [];
    UpdateHappinessSpriteSystem(changed, atlasSizes, spriteIndices);
    if timerJustFinished && |happiness| > 0 {
      var last := happiness[|happiness| - 1].value;
      assert 0.0 <= last <= 1.0 by {
        assert happiness[|happiness| - 1].Valid();
      }
      forall j | 0 <= j < spriteIndices.Length && atlasSizes[j] <= U32_MAX
        ensures spriteIndices[j] <= atlasSizes[j]
        ensures 0 < atlasSizes[j] ==> (spriteIndices[j] == atlasSizes[j] <==> last == 1.0)
      {
        SpriteIndexRange(last, atlasSizes[j]);
      }
    }
  }
}
