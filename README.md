# Mesh animation playback, modelled in Dafny

This project models the animation core of the `Mesh` entity in voodoo.js's
spellbook (`spellbook/src/Geometry/Mesh.js`). A mesh entity keeps three things:
- a registry of named clips;
- the playback flags `playing`, `looping` and the last observed time;
- a trail of `play`/`stop` events.

The entity drives a primary view and, optionally, a stencil view. Each view
(`MeshView_`) holds:
- a one-way `loaded` flag;
- a single pending-clip slot where the last request wins;
- the renderable that a clip is applied to.

A non-looping clip ends by wraparound detection. When the primary view's
playback time goes down between two frames, the entity snaps both views to
the last frame and stops.

Layout:
- `wrappers.dfy` holds `Option` and `Result`.
- `clips.dfy` holds the clip record built by `setAnimation` and the registry.
- `mesh_options.dfy` holds the construction asserts and defaults of `initialize`.
- `view_lifecycle.dfy` is the view's state machine as pure functions, with lemmas over call sequences.
- `playback.dfy` is the entity's state machine as pure functions, with lemmas over call sequences.
- `geometry.dfy` holds the classes `Renderable`, `MeshView` and `Mesh`. Their fields change in place. Each method is proved to move the abstract state exactly as the pure functions say.
- `scenarios.dfy` walks a non-looping clip from `play` through load to the wrap.

The renderer's own "advance by deltaMs" step is not part of this model. It is a
parameter `advance: (Pose, real) -> real` that gives the new playback time. The
asynchronous loader callback is an explicit `CompleteLoad(initial)` call. It is
allowed only while a load request is in flight. Its argument is the pose the
loader's geometry gives the new renderable.

Two points about the code's shape:
- `load` sets `loaded` to false again (line 21), so `MeshView.Load` resets it.
  `LoadedStaysLoaded` proves the flag stays set under plays, updates, snaps and
  load callbacks.
- The entity has one `view` and an optional `stencilView`, and the model keeps
  that shape.

A clip applied to a static renderable (a mesh loaded with `animated` false)
makes the source throw, because such a renderable has no `setDirectionForward`,
`setDirectionBackward` or `setFrameRange` (lines 77-81). The model's play and
update operations therefore require an animatable renderable wherever a clip
is applied; see "## Left out".

## Model

| member | source | states |
|---|---|---|
| Clips.MakeClip | spellbook/src/Geometry/Mesh.js:225-231 | the stored clip has duration seconds*1000, the frame window as given, and loop and forward true unless explicitly false |
| Clips.Define | spellbook/src/Geometry/Mesh.js:225 | the named entry is the new clip whatever it held before; every other entry is unchanged |
| MeshOptions.Configure | spellbook/src/Geometry/Mesh.js:145-158 | construction succeeds iff element and mesh are truthy; a missing element is reported first; format defaults to JSON when falsy; animated, center and pixelScale default to true |
| Geometry.MeshView.constructor | spellbook/src/Geometry/Mesh.js:18-26 | a new view has run `load`: not loaded, pending slot empty, a request in flight exactly for the JSON format |
| Geometry.MeshView.Load | spellbook/src/Geometry/Mesh.js:18-26 | `load` clears `loaded` and the pending slot and starts a request only for the JSON format |
| Geometry.MeshView.CompleteLoad | spellbook/src/Geometry/Mesh.js:40-63 | the callback creates a renderable, animatable iff the mesh is animated, and sets `loaded` last |
| Geometry.MeshView.PlayAnimation | spellbook/src/Geometry/Mesh.js:67-82 | unloaded: only the pending slot is overwritten; loaded (animatable renderable): time 0, the clip's duration, direction and frame range |
| Geometry.MeshView.UpdateAnimation | spellbook/src/Geometry/Mesh.js:84-97 | nothing before load; then a pending clip is applied to the (animatable) renderable and the slot cleared; an animatable renderable advances and the view is marked dirty; a static one with an empty slot is untouched |
| Geometry.MeshView.GetLastTime | spellbook/src/Geometry/Mesh.js:99-101 | the renderable's time once loaded, 0 before |
| Geometry.MeshView.SetToLastFrame | spellbook/src/Geometry/Mesh.js:103-109 | an animatable renderable is set to time 1 and re-evaluated by a zero step; a static one is untouched |
| ViewLifecycle.LoadedStaysLoaded | spellbook/src/Geometry/Mesh.js:63 | once loaded, no sequence of plays, updates, snaps and load callbacks that runs to its end makes the view unloaded |
| ViewLifecycle.BeforeLoadOnlyBuffers | spellbook/src/Geometry/Mesh.js:67-71 | before load, any plays and updates leave the renderable, flags and dirty count untouched, and the slot holds the last requested clip |
| ViewLifecycle.PendingAppliedOnFirstUpdate | spellbook/src/Geometry/Mesh.js:88-91 | on an animatable renderable, the first update after load shows the pending clip, restarts its time at 0 before advancing by the renderer's step, and empties the slot |
| ViewLifecycle.LaterUpdatesOnlyAdvance | spellbook/src/Geometry/Mesh.js:84-97 | with the slot empty, a run of updates only moves an animatable renderable's time by the renderer's successive steps from its current pose, one dirty mark per frame; a static renderable keeps its whole pose and the view is never marked |
| ViewLifecycle.DeferredPlayTakesEffectAfterLoad | spellbook/src/Geometry/Mesh.js:67-97 | for an animated mesh, the last clip requested before load is the one shown after the load callback and any non-empty run of updates |
| ViewLifecycle.SnapLeavesTimeOne | spellbook/src/Geometry/Mesh.js:103-109 | with a renderer whose zero step keeps the time, the snap leaves an animatable renderable at time 1 and the rest of the pose as it was |
| Geometry.Mesh.constructor | spellbook/src/Geometry/Mesh.js:140-162 | after initialize: not playing, not looping, no events, empty registry; each view has run `load` |
| Geometry.Mesh.CompleteViewLoad | spellbook/src/Geometry/Mesh.js:28-64 | the primary view's load callback; the entity and the stencil view are untouched |
| Geometry.Mesh.CompleteStencilLoad | spellbook/src/Geometry/Mesh.js:28-64 | the stencil view's load callback; the entity and the primary view are untouched |
| Geometry.Mesh.SetAnimation | spellbook/src/Geometry/Mesh.js:223-234 | the registry becomes Define(old registry, name, MakeClip(...)); playback state unchanged; returns the mesh itself |
| Geometry.Mesh.Play | spellbook/src/Geometry/Mesh.js:244-259 | the same registered clip goes to the primary and the stencil view (each loaded one animatable); a play event only if not playing before; then playing, looping as the clip, last time 0 |
| Geometry.Mesh.Stop | spellbook/src/Geometry/Mesh.js:267-272 | always exactly one stop event and playing false, whatever the prior state; views untouched |
| Geometry.Mesh.SetPlaying | spellbook/src/Geometry/Mesh.js:171-180 | setting false is exactly `stop()`; setting true changes nothing |
| Geometry.Mesh.Update | spellbook/src/Geometry/Mesh.js:183-205 | nothing when not playing; both views advance by deltaTime*1000 ms; non-looping playback stops and snaps both views iff the primary view's new time is below the last time, else remembers it; a pending clip is applied only to an animatable renderable |
| Playback.StepKeepsDiscipline | spellbook/src/Geometry/Mesh.js:251-254 | every call keeps the event trail disciplined: no two adjacent play events, playing iff the last event is play |
| Playback.RunKeepsDiscipline | spellbook/src/Geometry/Mesh.js:244-272 | any sequence of play, stop, setter and update calls keeps that discipline |
| Playback.FromInitialization | spellbook/src/Geometry/Mesh.js:160-162 | from initialization (not playing, no events) through any call sequence, the trail stays disciplined and holds one play event per start of playback |
| Playback.PlayEventsMatchStarts | spellbook/src/Geometry/Mesh.js:251-252 | over any call sequence, the play events added equal the number of false-to-true transitions of playing |
| Playback.UpdatesIgnoredWhenStoppedOrLooping | spellbook/src/Geometry/Mesh.js:184-191 | updates change nothing in a stopped mesh and never stop a looping one |
| Playback.NonLoopingStopsAtFirstWrap | spellbook/src/Geometry/Mesh.js:191-203 | non-looping playback keeps playing exactly while observed times do not decrease; the first decrease adds exactly one stop event |
| Playback.LastTimeNeverDecreases | spellbook/src/Geometry/Mesh.js:200-202 | between play calls the last observed time never decreases |
| Scenarios.WalkScenario | spellbook/src/Geometry/Mesh.js:244-272 | a non-looping walk clip played before load yields exactly one play and one stop event, ends stopped, and leaves the renderable on the clip at time 1 |

## Left out

- The mesh loader, the material wrapper and the construction of the renderable object (lines 30-51) are calls into the renderer library and asset I/O. The loop over materials at lines 34-38 is not modelled either. As written, its bound `len` is the boolean `0 < materials.length`, so the body runs once, on a non-empty list, and sets `flipY` on the array's `map` method (`materials.map`) rather than on a material's texture. That has no effect on the modelled state.
- `scene.add`, `triggers.add`, `scene.attach` and the `Positioner`/`voodoo.View` base classes are scene-graph plumbing with no visible effect here. `dirty()` is recorded as a counter, `redraws`.
- Event dispatch is modelled as appending the event name to the `events` trail.
- Loading is not asynchronous in the model. Its completion is the explicit call `CompleteLoad`, allowed only while a request is in flight.
- The renderer's `updateAnimation` (how time advances and wraps) is not part of this model. The new time comes from the caller-supplied `advance` function. Times, durations and frame numbers are `real`, not floating point.
- Geometry.Mesh.Play: requires the name to be registered, so an unregistered name is not modelled. In the source, a loaded primary view then fails reading the duration of an undefined clip (line 74) before any event. An unloaded one stores `undefined` in its pending slot; the play event is still dispatched (line 252) before reading `loop` fails (line 255), and every later update of that view then fails at line 74 once loaded.
- Geometry.Mesh.Play: requires each loaded view's renderable to be animatable. On a static renderable the source throws at line 77 or 79 (no `setDirectionForward`/`setDirectionBackward`); that throwing path is not modelled.
- Geometry.MeshView.PlayAnimation: requires an animatable renderable once loaded, for the same reason (lines 77-81).
- Geometry.MeshView.UpdateAnimation: requires an animatable renderable when a pending clip is applied (line 89). In the source the throw leaves the slot uncleared (line 90 is never reached), so every later frame throws again; that path is not modelled.
- Geometry.Mesh.Update: requires, while playing, the same of both views as `MeshView.UpdateAnimation` (line 187 and 189). It also requires a present stencil view to have its renderable only when the primary view's new time wraps: the source's `setToLastFrame_` reads it without a load check (line 104).
- Clips.Define: the registry `animations_` is a plain object in the source and is modelled as a map. Names inherited from `Object.prototype` (such as "toString") that are found without being registered, and the name "__proto__", whose assignment changes the prototype instead of adding an entry, are not modelled.
- Geometry.MeshView.SetToLastFrame: requires the renderable to exist, for the same reason.
- The error logged when `playing` is set to true is not modelled (the logger is outside this model); the state is unchanged, as in the source.
- `Object.defineProperty` is not modelled. `playing` and `looping` are plain fields, and the setter is the method `SetPlaying`.
- The chained `return this` is the out-parameter `self`.
- `lastTime_` is undefined until the first `play`, which sets it before any read. The model starts it at 0.
- The element option is modelled by a selector string. The optional flags are `Option<bool>`, so values that are neither a boolean nor undefined (such as `null`) are not modelled.
- A second `load` on an already loaded view (line 21) is modelled by `MeshView.Load`. The entity never issues one, so the load callback may assume it answers the latest request.
