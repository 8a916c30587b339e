/**
 * Animation clips and the per-mesh clip registry (`Mesh.prototype.setAnimation`).
 * A clip is the record the source stores under a name: its frame window, its
 * duration in milliseconds and its loop and direction flags.
 */
module Clips {
  import opened Wrappers

  /** Frame numbers and durations are JavaScript numbers; they are not validated. */
  datatype Clip = Clip(start: real, end: real, duration: real, loop: bool, forward: bool)

  /** The registry of named clips, `animations_`. */
  type Registry = map<string, Clip>

  /**
   * The record built by `setAnimation(name, start, end, seconds, opt_loop, opt_forward)`:
   * seconds become milliseconds, an omitted loop or direction flag means `true`, and
   * the frame window is passed through unchanged (no ordering or range check).
   */
  function MakeClip(start: real, end: real, seconds: real, loop: Option<bool>, forward: Option<bool>): (c: Clip)
    ensures c.duration == seconds * 1000.0
    ensures c.start == start && c.end == end
    ensures c.loop <==> loop != Some(false)
    ensures c.forward <==> forward != Some(false)
  {
    Clip(start, end, seconds * 1000.0, loop.GetOr(true), forward.GetOr(true))
  }

  /**
   * Registering `clip` under `name`: that entry is the new clip whatever it held
   * before (last write wins, no merge), and every other entry is unchanged.
   */
  function Define(registry: Registry, name: string, clip: Clip): (r: Registry)
    ensures r.Keys == registry.Keys + {name}
    ensures r[name] == clip
    ensures forall other :: other in registry && other != name ==> r[other] == registry[other]
  {
    registry[name := clip]
  }
}
