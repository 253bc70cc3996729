/**
 * The outer game mode and the engine's `State<GameState>` resource. A system
 * does not switch the mode itself: it queues the next mode with `SetNext`, and
 * the engine applies the request between stages.
 */
module States {
  import opened Wrappers

  datatype GameState = Menu | InGame

  class State {
    var current: GameState
    var next: Option<GameState>

    constructor (initial: GameState)
      ensures current == initial && next == None
    {
      current := initial;
      next := None;
    }

    /**
     * Queues `target` as the next mode. The engine refuses a request for the
     * mode that is already current, and a request while another next mode is
     * still queued; on a refusal nothing changes. The callers unwrap the
     * result, so a refused request aborts the program.
     */
    method SetNext(target: GameState) returns (ok: bool)
      modifies this
      ensures ok <==> target != old(current) && old(next) == None
      ensures current == old(current)
      ensures next == if ok then Some(target) else old(next)
    {
      ok := target != current && next == None;
      if ok {
        next := Some(target);
      }
    }
  }
}
