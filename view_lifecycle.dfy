/**
 * The state machine of one mesh view (`MeshView_`), as values: the one-way
 * `loaded` flag, the single-slot pending clip, and what applying a clip does to
 * the renderable. The class `Geometry.MeshView` is proved against these functions.
 */
module ViewLifecycle {
  import opened Wrappers
  import opened Clips

  /** The animation state of a renderable: playback time, duration (ms), direction, frame window. */
  datatype Pose = Pose(time: real, duration: real, forward: bool, rangeStart: real, rangeEnd: real)

  /**
   * A renderable. `animatable` says whether it has an `updateAnimation` step
   * (a morph-animated mesh has one, a static mesh does not).
   */
  datatype Renderable = Renderable(animatable: bool, pose: Pose)

  /**
   * The renderer's own "advance by deltaMs" step, which is not part of this model:
   * any total function from the current pose and the delta to the new playback time.
   */
  type Advance = (Pose, real) -> real

  /**
   * A view: whether loading has completed, whether a load request is in flight,
   * the deferred clip, the renderable once created, and how often it was marked dirty.
   */
  datatype View = View(loaded: bool, loading: bool, pending: Option<Clip>, renderable: Option<Renderable>, redraws: nat)

  /** A view before its first load. */
  const Fresh := View(false, false, None, None, 0)

  /** The renderable exists whenever the view counts as loaded. */
  predicate Wf(v: View) {
    v.loaded ==> v.renderable.Some?
  }

  /** `load`: clear the flag and the pending slot; only the JSON format starts a request. */
  function Load(v: View, isJson: bool): View {
    v.(loaded := false, pending := None, loading := isJson)
  }

  /**
   * The loader's callback: the renderable is created (animatable exactly when the
   * mesh is configured as animated, starting at the pose the loader gives it), and
   * setting `loaded` is the last step.
   */
  function CompleteLoad(v: View, animated: bool, initial: Pose): View {
    v.(renderable := Some(Renderable(animated, initial)), loading := false, loaded := true)
  }

  /** Applying a clip: time 0, the clip's duration and direction, and its frame window. */
  function Apply(r: Renderable, c: Clip): Renderable {
    r.(pose := Pose(0.0, c.duration, c.forward, c.start, c.end))
  }

  /** The renderer's step, which sets only the playback time. */
  function Advanced(r: Renderable, deltaMs: real, advance: Advance): Renderable {
    r.(pose := r.pose.(time := advance(r.pose, deltaMs)))
  }

  /**
   * `playAnimation_` runs to its end: before load it only buffers; once loaded it
   * calls the direction and frame-range setters, which only an animatable
   * renderable has (on a static mesh the source throws at line 77 or 79).
   */
  predicate CanPlay(v: View) {
    Wf(v) && (v.loaded ==> v.renderable.value.animatable)
  }

  /** `updateAnimation_` runs to its end: a pending clip is applied only to an animatable renderable. */
  predicate CanUpdate(v: View) {
    Wf(v) && (v.loaded && v.pending.Some? ==> v.renderable.value.animatable)
  }

  /** `playAnimation_`: defer the clip while not loaded, apply it otherwise. */
  function PlayAnimation(v: View, c: Clip): (w: View)
    requires CanPlay(v)
    ensures Wf(w)
  {
    if !v.loaded then v.(pending := Some(c))
    else v.(renderable := Some(Apply(v.renderable.value, c)))
  }

  /**
   * `updateAnimation_`: nothing before load; then the pending clip (if any) is
   * applied and the slot cleared; then an animatable renderable is advanced and
   * the view marked dirty.
   */
  function UpdateAnimation(v: View, deltaMs: real, advance: Advance): (w: View)
    requires CanUpdate(v)
    ensures CanUpdate(w)
  {
    if !v.loaded then v
    else
      var v1 := if v.pending.Some? then PlayAnimation(v, v.pending.value).(pending := None) else v;
      var r := v1.renderable.value;
      if r.animatable then v1.(renderable := Some(Advanced(r, deltaMs, advance)), redraws := v1.redraws + 1)
      else v1
  }

  /** `getLastTime_`: the renderable's playback time once loaded, 0 before. */
  function LastTime(v: View): real
    requires Wf(v)
  {
    if v.loaded then v.renderable.value.pose.time else 0.0
  }

  /**
   * `setToLastFrame_`: on an animatable renderable, time is forced to 1, the pose is
   * re-evaluated by a zero step, and the view is marked dirty. The source reads the
   * renderable without checking `loaded`, so the renderable must exist.
   */
  function SetToLastFrame(v: View, advance: Advance): View
    requires v.renderable.Some?
  {
    var r := v.renderable.value;
    if r.animatable then
      v.(renderable := Some(Advanced(r.(pose := r.pose.(time := 1.0)), 0.0, advance)), redraws := v.redraws + 1)
    else v
  }

  /**
   * The calls a view receives after `load`: play, per-frame update, the snap to
   * the last frame, and the load callback.
   */
  datatype Command = PlayCmd(clip: Clip) | UpdateCmd(deltaMs: real) | SnapCmd | CompleteCmd(animated: bool, initial: Pose)

  /** The call runs to its end in the source (it does not throw). */
  predicate CanStep(v: View, cmd: Command) {
    match cmd
    case PlayCmd(_) => CanPlay(v)
    case UpdateCmd(_) => CanUpdate(v)
    case SnapCmd => Wf(v) && v.renderable.Some?
    case CompleteCmd(_, _) => Wf(v)
  }

  function Step(v: View, cmd: Command, advance: Advance): (w: View)
    requires CanStep(v, cmd)
    ensures Wf(w)
  {
    match cmd
    case PlayCmd(c) => PlayAnimation(v, c)
    case UpdateCmd(d) => UpdateAnimation(v, d, advance)
    case SnapCmd => SetToLastFrame(v, advance)
    case CompleteCmd(animated, initial) => CompleteLoad(v, animated, initial)
  }

  /** Every call of `cmds`, in turn, runs to its end. */
  predicate CanRun(v: View, cmds: seq<Command>, advance: Advance)
    decreases |cmds|
  {
    if cmds == [] then Wf(v)
    else CanStep(v, cmds[0]) && CanRun(Step(v, cmds[0], advance), cmds[1..], advance)
  }

  function Run(v: View, cmds: seq<Command>, advance: Advance): (w: View)
    requires CanRun(v, cmds, advance)
    ensures Wf(w)
    decreases |cmds|
  {
    if cmds == [] then v else Run(Step(v, cmds[0], advance), cmds[1..], advance)
  }

  /** Per-frame updates only. */
  function RunUpdates(v: View, deltas: seq<real>, advance: Advance): (w: View)
    requires CanUpdate(v)
    ensures CanUpdate(w)
    decreases |deltas|
  {
    if deltas == [] then v else RunUpdates(UpdateAnimation(v, deltas[0], advance), deltas[1..], advance)
  }

  /** The playback time after the renderer's steps for `deltas`, one after the other, from pose `p`. */
  function TimeAfter(p: Pose, deltas: seq<real>, advance: Advance): real
    decreases |deltas|
  {
    if deltas == [] then p.time else TimeAfter(p.(time := advance(p, deltas[0])), deltas[1..], advance)
  }

  /** The clip of the last play request in `cmds`, or `otherwise` when there is none. */
  function LastRequested(cmds: seq<Command>, otherwise: Option<Clip>): Option<Clip>
    decreases |cmds|
  {
    if cmds == [] then otherwise
    else LastRequested(cmds[1..], if cmds[0].PlayCmd? then Some(cmds[0].clip) else otherwise)
  }

  /** The renderable shows clip `c`: its duration, direction and frame window. */
  predicate Shows(r: Renderable, c: Clip) {
    r.pose.duration == c.duration && r.pose.forward == c.forward
    && r.pose.rangeStart == c.start && r.pose.rangeEnd == c.end
  }

  /** Once loaded, no call a view receives after `load` makes it unloaded again. */
  lemma {:induction false} LoadedStaysLoaded(v: View, cmds: seq<Command>, advance: Advance)
    requires CanRun(v, cmds, advance) && v.loaded
    ensures Run(v, cmds, advance).loaded
    decreases |cmds|
  {
    if cmds != [] {
      LoadedStaysLoaded(Step(v, cmds[0], advance), cmds[1..], advance);
    }
  }

  /**
   * Before load completes, plays and updates never throw and only touch the
   * pending slot: the renderable, the flags and the dirty count are untouched,
   * and the slot holds the last requested clip (later requests overwrite earlier ones).
   */
  lemma {:induction false} BeforeLoadOnlyBuffers(v: View, cmds: seq<Command>, advance: Advance)
    requires Wf(v) && !v.loaded
    requires forall i :: 0 <= i < |cmds| ==> cmds[i].PlayCmd? || cmds[i].UpdateCmd?
    ensures CanRun(v, cmds, advance)
    ensures Run(v, cmds, advance) == v.(pending := LastRequested(cmds, v.pending))
    decreases |cmds|
  {
    if cmds != [] {
      assert CanStep(v, cmds[0]);
      var w := Step(v, cmds[0], advance);
      assert w == v.(pending := if cmds[0].PlayCmd? then Some(cmds[0].clip) else v.pending);
      BeforeLoadOnlyBuffers(w, cmds[1..], advance);
    }
  }

  /**
   * The first update after load applies the pending clip to the (animatable)
   * renderable and empties the slot: the time restarts at 0 and is then advanced.
   */
  lemma PendingAppliedOnFirstUpdate(v: View, c: Clip, deltaMs: real, advance: Advance)
    requires Wf(v) && v.loaded && v.pending == Some(c) && v.renderable.value.animatable
    ensures var w := UpdateAnimation(v, deltaMs, advance);
      && w.pending == None
      && w.renderable.value.animatable
      && Shows(w.renderable.value, c)
      && w.renderable.value.pose.time == advance(Pose(0.0, c.duration, c.forward, c.start, c.end), deltaMs)
  {
  }

  /**
   * With the slot empty, later updates never apply a clip again: the slot stays
   * empty, an animatable renderable only moves its time by the renderer's steps
   * from where it was (never back to 0), one dirty mark per frame, and a static
   * renderable keeps its whole pose.
   */
  lemma {:induction false} LaterUpdatesOnlyAdvance(v: View, deltas: seq<real>, advance: Advance)
    requires Wf(v) && v.loaded && v.pending == None
    ensures var w := RunUpdates(v, deltas, advance);
      var r := v.renderable.value;
      && w.loaded && w.pending == None
      && w.renderable == Some(if r.animatable then r.(pose := r.pose.(time := TimeAfter(r.pose, deltas, advance))) else r)
      && w.redraws == v.redraws + (if r.animatable then |deltas| else 0)
    decreases |deltas|
  {
    if deltas != [] {
      LaterUpdatesOnlyAdvance(UpdateAnimation(v, deltas[0], advance), deltas[1..], advance);
    }
  }

  /**
   * A deferred request is applied exactly once: on an animated mesh, after any
   * plays and updates before load (the last play being of `c`), the load callback
   * and then any non-empty run of updates, the renderable shows `c` and the slot is empty.
   */
  lemma DeferredPlayTakesEffectAfterLoad(
    v: View, before: seq<Command>, c: Clip, initial: Pose, deltas: seq<real>, advance: Advance)
    requires Wf(v) && !v.loaded
    requires forall i :: 0 <= i < |before| ==> before[i].PlayCmd? || before[i].UpdateCmd?
    requires LastRequested(before, v.pending) == Some(c)
    requires deltas != []
    ensures CanRun(v, before, advance)
    ensures var loaded := CompleteLoad(Run(v, before, advance), true, initial);
      var w := RunUpdates(loaded, deltas, advance);
      && w.loaded && w.pending == None && Shows(w.renderable.value, c)
      && w.renderable.value.animatable
  {
    BeforeLoadOnlyBuffers(v, before, advance);
    var loaded := CompleteLoad(Run(v, before, advance), true, initial);
    assert loaded.pending == Some(c);
    PendingAppliedOnFirstUpdate(loaded, c, deltas[0], advance);
    LaterUpdatesOnlyAdvance(UpdateAnimation(loaded, deltas[0], advance), deltas[1..], advance);
  }

  /** The renderer's zero step re-evaluates the pose without moving the time. */
  ghost predicate ZeroStepKeepsTime(advance: Advance) {
    forall p: Pose :: advance(p, 0.0) == p.time
  }

  /**
   * Snapping to the last frame leaves an animatable renderable at time 1 (given a
   * renderer whose zero step keeps the time) and changes nothing else of the pose;
   * a static renderable is untouched.
   */
  lemma SnapLeavesTimeOne(v: View, advance: Advance)
    requires v.renderable.Some? && ZeroStepKeepsTime(advance)
    ensures var w := SetToLastFrame(v, advance);
      && w.loaded == v.loaded && w.pending == v.pending && w.renderable.Some?
      && (v.renderable.value.animatable ==> w.renderable.value.pose == v.renderable.value.pose.(time := 1.0))
      && (!v.renderable.value.animatable ==> w == v)
  {
  }
}
