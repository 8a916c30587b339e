/**
 * The mesh entity and its views as objects whose fields change in place
 * (`spellbook/src/Geometry/Mesh.js`). Each method is proved to change the
 * abstract state exactly as the functions of `ViewLifecycle` and `Playback` say.
 */
module Geometry {
  import opened Wrappers
  import opened Clips
  import opened MeshOptions
  import V = ViewLifecycle
  import P = Playback

  /** The renderer's drawable (a morph-animated or a static mesh), reduced to its animation state. */
  class Renderable {
    const animatable: bool
    var time: real
    var duration: real
    var forward: bool
    var rangeStart: real
    var rangeEnd: real

    constructor (animatable: bool, initial: V.Pose)
      ensures State() == V.Renderable(animatable, initial)
    {
      this.animatable := animatable;
      time, duration, forward := initial.time, initial.duration, initial.forward;
      rangeStart, rangeEnd := initial.rangeStart, initial.rangeEnd;
    }

    function Pose(): V.Pose
      reads this
    {
      V.Pose(time, duration, forward, rangeStart, rangeEnd)
    }

    ghost function State(): V.Renderable
      reads this
    {
      V.Renderable(animatable, Pose())
    }

    method SetDirectionForward()
      modifies this
      ensures State() == old(State()).(pose := old(Pose()).(forward := true))
    {
      forward := true;
    }

    method SetDirectionBackward()
      modifies this
      ensures State() == old(State()).(pose := old(Pose()).(forward := false))
    {
      forward := false;
    }

    method SetFrameRange(start: real, end: real)
      modifies this
      ensures State() == old(State()).(pose := old(Pose()).(rangeStart := start, rangeEnd := end))
    {
      rangeStart, rangeEnd := start, end;
    }

    /** The renderer's opaque step: the new time is whatever `advance` gives. */
    method UpdateAnimation(deltaMs: real, advance: V.Advance)
      modifies this
      ensures State() == V.Advanced(old(State()), deltaMs, advance)
    {
      time := advance(Pose(), deltaMs);
    }
  }

  /** `MeshView_`: one per pass (primary or stencil), owning its renderable and load state. */
  class MeshView {
    const isJson: bool
    const animated: bool
    var loaded: bool
    var loading: bool
    var pending: Option<Clip>
    var mesh: Renderable?
    var redraws: nat
    ghost var Repr: set<object>

    ghost predicate Valid()
      reads this, Repr
    {
      && this in Repr
      && Repr == (if mesh == null then {this} else {this, mesh})
      && (loaded ==> mesh != null)
    }

    ghost function State(): (v: V.View)
      reads this, mesh
      ensures mesh != null ==> v.renderable == Some(mesh.State())
    {
      V.View(loaded, loading, pending, if mesh == null then None else Some(mesh.State()), redraws)
    }

    /** Creating the view runs `load`. */
    constructor (isJson: bool, animated: bool)
      ensures Valid() && fresh(Repr)
      ensures this.isJson == isJson && this.animated == animated
      ensures State() == V.Load(V.Fresh, isJson)
    {
      this.isJson, this.animated := isJson, animated;
      loaded, loading, pending, mesh, redraws := false, false, None, null, 0;
      Repr := {this};
      new;
      Load();
    }

    method Load()
      requires Valid()
      modifies this
      ensures Valid() && Repr == old(Repr)
      ensures State() == V.Load(old(State()), isJson)
    {
      loaded := false;
      pending := None;
      loading := isJson;
    }

    /** The loader's callback, which arrives only for a request in flight. */
    method CompleteLoad(initial: V.Pose)
      requires Valid() && loading
      modifies this
      ensures Valid() && fresh(Repr - old(Repr))
      ensures State() == V.CompleteLoad(old(State()), animated, initial)
    {
      mesh := new Renderable(animated, initial);
      Repr := {this, mesh};
      loading := false;
      loaded := true;
    }

    /** A loaded static renderable has no direction or frame-range setters: the source throws there. */
    method PlayAnimation(clip: Clip)
      requires Valid() && (loaded ==> mesh.animatable)
      modifies Repr
      ensures Valid() && Repr == old(Repr)
      ensures State() == V.PlayAnimation(old(State()), clip)
    {
      if !loaded {
        pending := Some(clip);
        return;
      }
      mesh.time := 0.0;
      mesh.duration := clip.duration;
      if clip.forward {
        mesh.SetDirectionForward();
      } else {
        mesh.SetDirectionBackward();
      }
      mesh.SetFrameRange(clip.start, clip.end);
    }

    /** A pending clip can be applied only to an animatable renderable (see `PlayAnimation`). */
    method UpdateAnimation(deltaMs: real, advance: V.Advance)
      requires Valid() && (loaded && pending.Some? ==> mesh.animatable)
      modifies Repr
      ensures Valid() && Repr == old(Repr)
      ensures State() == V.UpdateAnimation(old(State()), deltaMs, advance)
    {
      if !loaded {
        return;
      }
      if pending.Some? {
        PlayAnimation(pending.value);
        pending := None;
      }
      if mesh.animatable {
        mesh.UpdateAnimation(deltaMs, advance);
        redraws := redraws + 1;
      }
    }

    function GetLastTime(): (t: real)
      reads this, Repr
      requires Valid()
      ensures !loaded ==> t == 0.0
      ensures t == V.LastTime(State())
    {
      if loaded then mesh.time else 0.0
    }

    method SetToLastFrame(advance: V.Advance)
      requires Valid() && mesh != null
      modifies Repr
      ensures Valid() && Repr == old(Repr)
      ensures State() == V.SetToLastFrame(old(State()), advance)
    {
      if mesh.animatable {
        mesh.time := 1.0;
        mesh.UpdateAnimation(0.0, advance);
        redraws := redraws + 1;
      }
    }
  }

  /** `Mesh`: the entity with its clip registry, playback flags and event trail. */
  class Mesh {
    const config: Config
    const view: MeshView
    const stencilView: MeshView?
    var animations: Registry
    var playing: bool
    var looping: bool
    var lastTime: real
    var events: seq<string>
    ghost var Repr: set<object>

    ghost predicate Valid()
      reads this, Repr
    {
      && this in Repr && view in Repr && view.Repr <= Repr && this !in view.Repr
      && view.Valid()
      && (stencilView != null ==>
            && stencilView in Repr && stencilView.Repr <= Repr && this !in stencilView.Repr
            && stencilView.Valid() && view.Repr !! stencilView.Repr)
      && Repr == {this} + view.Repr + (if stencilView != null then stencilView.Repr else {})
      && view.isJson == (config.format == JSON) && view.animated == config.animated
      && (stencilView != null ==> stencilView.isJson == view.isJson && stencilView.animated == view.animated)
      // a positive last time was observed on the primary view, so its renderable exists
      && (lastTime > 0.0 ==> view.mesh != null)
    }

    ghost function State(): P.State
      reads this
    {
      P.State(playing, looping, lastTime, events)
    }

    /**
     * Construction from a configuration that passed `Configure`'s asserts; the
     * host creates the primary view and, for a secondary pass, a stencil view.
     */
    constructor (config: Config, hasStencil: bool)
      ensures Valid() && fresh(Repr)
      ensures this.config == config && (stencilView != null <==> hasStencil)
      ensures State() == P.Initial && animations == map[]
      ensures view.State() == V.Load(V.Fresh, config.format == JSON)
      ensures stencilView != null ==> stencilView.State() == V.Load(V.Fresh, config.format == JSON)
    {
      this.config := config;
      var isJson := config.format == JSON;
      view := new MeshView(isJson, config.animated);
      var stencil: MeshView? := null;
      if hasStencil {
        stencil := new MeshView(isJson, config.animated);
      }
      stencilView := stencil;
      animations := map[];
      playing, looping, lastTime, events := false, false, 0.0, [];
      new;
      Repr := {this} + view.Repr + (if stencilView != null then stencilView.Repr else {});
    }

    /** The loader's callback on the primary view. */
    method CompleteViewLoad(initial: V.Pose)
      requires Valid() && view.loading
      modifies Repr
      ensures Valid() && fresh(Repr - old(Repr))
      ensures State() == old(State()) && animations == old(animations)
      ensures view.State() == V.CompleteLoad(old(view.State()), config.animated, initial)
      ensures stencilView != null ==> stencilView.State() == old(stencilView.State())
    {
      view.CompleteLoad(initial);
      Repr := {this} + view.Repr + (if stencilView != null then stencilView.Repr else {});
    }

    /** The loader's callback on the stencil view. */
    method CompleteStencilLoad(initial: V.Pose)
      requires Valid() && stencilView != null && stencilView.loading
      modifies Repr
      ensures Valid() && fresh(Repr - old(Repr))
      ensures State() == old(State()) && animations == old(animations)
      ensures stencilView.State() == V.CompleteLoad(old(stencilView.State()), config.animated, initial)
      ensures view.State() == old(view.State())
    {
      stencilView.CompleteLoad(initial);
      Repr := {this} + view.Repr + stencilView.Repr;
    }

    /** `setAnimation`: register the clip under `name`; returns the mesh itself. */
    method SetAnimation(name: string, start: real, end: real, seconds: real, loop: Option<bool>, forward: Option<bool>)
      returns (self: Mesh)
      requires Valid()
      modifies this
      ensures Valid() && Repr == old(Repr) && self == this
      ensures animations == Define(old(animations), name, MakeClip(start, end, seconds, loop, forward))
      ensures State() == old(State())
    {
      animations := animations[name := MakeClip(start, end, seconds, loop, forward)];
      self := this;
    }

    /**
     * `play`: the clip goes to the primary view and, if present, the stencil view;
     * the entity then plays it. The source fails on a name that is not registered.
     */
    method Play(name: string) returns (self: Mesh)
      requires Valid() && name in animations
      requires V.CanPlay(view.State())
      requires stencilView != null ==> V.CanPlay(stencilView.State())
      modifies Repr
      ensures Valid() && Repr == old(Repr) && self == this && animations == old(animations)
      ensures State() == P.Play(old(State()), animations[name])
      ensures view.State() == V.PlayAnimation(old(view.State()), animations[name])
      ensures stencilView != null ==>
        stencilView.State() == V.PlayAnimation(old(stencilView.State()), animations[name])
    {
      var animation := animations[name];
      PlayOnViews(animation);
      ghost var views := (view.State(), if stencilView != null then Some(stencilView.State()) else None);
      if !playing {
        events := events + [P.PLAY];
      }
      playing := true;
      looping := animation.loop;
      lastTime := 0.0;
      self := this;
      assert views == (view.State(), if stencilView != null then Some(stencilView.State()) else None);
    }

    /** Forwards a clip to the primary view and, if present, the stencil view. */
    method PlayOnViews(clip: Clip)
      requires Valid()
      requires V.CanPlay(view.State())
      requires stencilView != null ==> V.CanPlay(stencilView.State())
      modifies Repr
      ensures Valid() && Repr == old(Repr) && State() == old(State()) && animations == old(animations)
      ensures view.State() == V.PlayAnimation(old(view.State()), clip)
      ensures stencilView != null ==> stencilView.State() == V.PlayAnimation(old(stencilView.State()), clip)
    {
      view.PlayAnimation(clip);
      if stencilView != null {
        stencilView.PlayAnimation(clip);
      }
    }

    /** `stop`: dispatch the stop event and clear `playing`; the views are not touched. */
    method Stop() returns (self: Mesh)
      requires Valid()
      modifies this
      ensures Valid() && Repr == old(Repr) && self == this && animations == old(animations)
      ensures State() == P.Stop(old(State()))
    {
      events := events + [P.STOP];
      playing := false;
      self := this;
    }

    /** The `playing` setter: false stops; true is refused and changes nothing. */
    method SetPlaying(value: bool)
      requires Valid()
      modifies this
      ensures Valid() && Repr == old(Repr) && animations == old(animations)
      ensures State() == P.SetPlaying(old(State()), value)
    {
      if !value {
        var _ := Stop();
      }
    }

    /**
     * `update(deltaTime)`, with `deltaTime` in seconds. Both views advance by the
     * same number of milliseconds; a non-looping clip whose primary-view time went
     * down snaps both views to the last frame and stops. A pending clip is applied
     * only to an animatable renderable, and the snap reads the stencil renderable
     * without a load check, so it must exist when a wrap is detected.
     */
    method Update(deltaTime: real, advance: V.Advance)
      requires Valid()
      requires playing ==> V.CanUpdate(view.State())
      requires playing && stencilView != null ==> V.CanUpdate(stencilView.State())
      requires playing && stencilView != null
        && P.Wraps(State(), V.LastTime(V.UpdateAnimation(view.State(), deltaTime * 1000.0, advance)))
        ==> stencilView.mesh != null
      modifies Repr
      ensures Valid() && Repr == old(Repr) && animations == old(animations)
      ensures !old(playing) ==> State() == old(State()) && view.State() == old(view.State())
      ensures !old(playing) && stencilView != null ==> stencilView.State() == old(stencilView.State())
      ensures old(playing) ==>
        var v1 := V.UpdateAnimation(old(view.State()), deltaTime * 1000.0, advance);
        var observed := V.LastTime(v1);
        && State() == P.Update(old(State()), observed)
        && (P.Wraps(old(State()), observed) ==> v1.renderable.Some? && view.State() == V.SetToLastFrame(v1, advance))
        && (!P.Wraps(old(State()), observed) ==> view.State() == v1)
      ensures old(playing) && stencilView != null ==>
        var v1 := V.UpdateAnimation(old(view.State()), deltaTime * 1000.0, advance);
        var s1 := V.UpdateAnimation(old(stencilView.State()), deltaTime * 1000.0, advance);
        var observed := V.LastTime(v1);
        && (P.Wraps(old(State()), observed) ==> s1.renderable.Some? && stencilView.State() == V.SetToLastFrame(s1, advance))
        && (!P.Wraps(old(State()), observed) ==> stencilView.State() == s1)
    {
      if playing {
        var deltaTimeMs := deltaTime * 1000.0;
        UpdateViews(deltaTimeMs, advance);
        if !looping {
          var observed := view.GetLastTime();
          if observed < lastTime {
            SnapViews(advance);
            var _ := Stop();
          } else {
            lastTime := observed;
          }
        }
      }
    }

    /** Advances the primary view and, if present, the stencil view by the same delta. */
    method UpdateViews(deltaMs: real, advance: V.Advance)
      requires Valid() && V.CanUpdate(view.State())
      requires stencilView != null ==> V.CanUpdate(stencilView.State())
      modifies Repr
      ensures Valid() && Repr == old(Repr) && State() == old(State()) && animations == old(animations)
      ensures view.State() == V.UpdateAnimation(old(view.State()), deltaMs, advance)
      ensures stencilView != null ==> stencilView.State() == V.UpdateAnimation(old(stencilView.State()), deltaMs, advance)
    {
      view.UpdateAnimation(deltaMs, advance);
      if stencilView != null {
        stencilView.UpdateAnimation(deltaMs, advance);
      }
    }

    /** Snaps the primary view and, if present, the stencil view to the last frame. */
    method SnapViews(advance: V.Advance)
      requires Valid() && view.mesh != null
      requires stencilView != null ==> stencilView.mesh != null
      modifies Repr
      ensures Valid() && Repr == old(Repr) && State() == old(State()) && animations == old(animations)
      ensures view.State() == V.SetToLastFrame(old(view.State()), advance)
      ensures stencilView != null ==> stencilView.State() == V.SetToLastFrame(old(stencilView.State()), advance)
    {
      view.SetToLastFrame(advance);
      if stencilView != null {
        stencilView.SetToLastFrame(advance);
      }
    }
  }
}
