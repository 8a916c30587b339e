/**
 * A walk cycle driven through the public surface of `Geometry.Mesh`: a
 * non-looping clip is played before the mesh has loaded, the load completes,
 * and the frames run until the renderer's time wraps.
 */
module Scenarios {
  import opened Wrappers
  import opened MeshOptions
  import V = ViewLifecycle
  import P = Playback
  import Geometry

  /**
   * One play event when playback starts, exactly one stop event when the time
   * wraps, and the mesh is stopped afterwards; the deferred clip reached the
   * renderable at the first frame after load.
   */
  method WalkScenario() returns (events: seq<string>, playing: bool, looping: bool, shown: V.Pose)
    ensures events == [P.PLAY, P.STOP]
    ensures !playing && !looping
    ensures shown == V.Pose(1.0, 1000.0, true, 0.0, 30.0)
  {
    var options := Options(Some("#stage"), Some("walk.json"), None, Some(true), None, None);
    var config := Configure(options);
    assert config.Success?;
    var mesh := new Geometry.Mesh(config.value, false);
    var _ := mesh.SetAnimation("walk", 0.0, 30.0, 1.0, Some(false), Some(true));
    var _ := mesh.Play("walk");
    assert mesh.events == [P.PLAY] && mesh.playing && !mesh.looping;
    // the clip waits in the pending slot until the loader calls back
    assert mesh.view.pending.Some?;

    mesh.CompleteViewLoad(V.Pose(0.0, 1000.0, true, 0.0, 59.0));
    // a renderer that moves the time forward and keeps it on a zero step
    var forward: V.Advance := (p: V.Pose, d: real) => if d == 0.0 then p.time else p.time + 0.5;
    mesh.Update(1.0 / 60.0, forward);
    assert mesh.playing && mesh.lastTime == 0.5;
    // a renderer that has wrapped back towards the first frame
    var wrapped: V.Advance := (p: V.Pose, d: real) => if d == 0.0 then p.time else 0.1;
    mesh.Update(1.0 / 60.0, wrapped);
    events, playing, looping, shown := mesh.events, mesh.playing, mesh.looping, mesh.view.mesh.Pose();
  }
}
