/**
 * The `carAnimations` map from car id to animation handle, and the three
 * things done to it: set or replace, pause if present, cancel and delete.
 */
module Animations {
  import opened Engine

  /** A live handle is running (or finished, holding its end) or paused. */
  datatype HandleState = Running | Paused

  /** One Web Animations handle: its play state and the duration it was started with. */
  datatype Handle = Handle(state: HandleState, duration: Duration)

  /**
   * The map's content, `live`, together with `orphaned`: the handles that a
   * later `set` for the same id replaced without cancelling them. Nothing
   * reaches an orphaned handle again, so its state stays as it was.
   */
  datatype Registry = Registry(live: map<int, Handle>, orphaned: seq<Handle>)

  const Empty := Registry(map[], [])

  /** `carAnimations.set(id, animation)` for a freshly started animation. */
  function Store(reg: Registry, id: int, duration: Duration): (r: Registry)
    ensures r.live.Keys == reg.live.Keys + {id}
    ensures r.live[id] == Handle(Running, duration)
    ensures forall other :: other in reg.live && other != id ==> r.live[other] == reg.live[other]
  {
    Registry(reg.live[id := Handle(Running, duration)],
             if id in reg.live then reg.orphaned + [reg.live[id]] else reg.orphaned)
  }

  /** `stopCarAnimation`: pause the handle for `id` if there is one. */
  function Pause(reg: Registry, id: int): (r: Registry)
    ensures r.live.Keys == reg.live.Keys && r.orphaned == reg.orphaned
    ensures id in reg.live ==> r.live[id] == reg.live[id].(state := Paused)
    ensures forall other :: other in reg.live && other != id ==> r.live[other] == reg.live[other]
  {
    if id in reg.live then
      Registry(reg.live[id := reg.live[id].(state := Paused)], reg.orphaned)
    else reg
  }

  /** The handle is cancelled and `carAnimations.delete(id)` drops it. */
  function Cancel(reg: Registry, id: int): (r: Registry)
    ensures r.live.Keys == reg.live.Keys - {id} && r.orphaned == reg.orphaned
    ensures forall other :: other in r.live ==> r.live[other] == reg.live[other]
  {
    Registry(reg.live - {id}, reg.orphaned)
  }

  /** Pausing is a no-op without a handle and pausing twice is pausing once. */
  lemma PauseIdempotent(reg: Registry, id: int)
    ensures id !in reg.live ==> Pause(reg, id) == reg
    ensures Pause(Pause(reg, id), id) == Pause(reg, id)
  {
  }

  /** Cancelling is a no-op without a handle and cancelling twice is cancelling once. */
  lemma CancelIdempotent(reg: Registry, id: int)
    ensures id !in reg.live ==> Cancel(reg, id) == reg
    ensures Cancel(Cancel(reg, id), id) == Cancel(reg, id)
  {
  }

  /**
   * A second start for an id whose handle is still running replaces it in
   * the map without cancelling it: the old animation is left running where
   * nothing can pause or cancel it.
   */
  lemma ReplacedHandleKeepsRunning(reg: Registry, id: int, duration: Duration)
    requires id in reg.live && reg.live[id].state == Running
    ensures var r := Store(reg, id, duration);
      |r.orphaned| == |reg.orphaned| + 1 && r.orphaned[|reg.orphaned|].state == Running
  {
  }

  /** Whatever was done before, a reset leaves no handle for the id, and a later start leaves exactly a running one. */
  lemma ResetThenStart(reg: Registry, id: int, duration: Duration)
    ensures id !in Cancel(reg, id).live
    ensures Store(Cancel(reg, id), id, duration).orphaned == reg.orphaned
    ensures Store(Cancel(reg, id), id, duration).live == reg.live[id := Handle(Running, duration)]
  {
  }
}
