/**
 * The playback state machine of a `Mesh` entity, as values: `playing_`,
 * `looping_`, `lastTime_` and the trail of dispatched events. The class
 * `Geometry.Mesh` is proved against these functions; the lemmas below state
 * what the rules promise over whole sequences of calls.
 */
module Playback {
  import opened Clips

  /** The names of the events a mesh dispatches. */
  const PLAY := "play"
  const STOP := "stop"

  datatype State = State(playing: bool, looping: bool, lastTime: real, events: seq<string>)

  /** After initialization: neither playing nor looping, and nothing dispatched. */
  const Initial := State(false, false, 0.0, [])

  /**
   * `play` on a registered clip: the play event is dispatched only when not
   * already playing; afterwards playing, looping as the clip says, last time 0.
   */
  function Play(s: State, clip: Clip): State {
    State(true, clip.loop, 0.0, if s.playing then s.events else s.events + [PLAY])
  }

  /** `stop`: always dispatches the stop event and clears `playing`. */
  function Stop(s: State): State {
    s.(playing := false, events := s.events + [STOP])
  }

  /** The `playing` setter: false means `stop()`; true is refused and changes nothing. */
  function SetPlaying(s: State, playing: bool): State {
    if playing then s else Stop(s)
  }

  /** A non-looping playback has wrapped: the observed time went below the last one. */
  predicate Wraps(s: State, observed: real) {
    s.playing && !s.looping && observed < s.lastTime
  }

  /**
   * What `update` does to the entity once the primary view reports `observed`:
   * nothing unless playing and not looping; a wrap stops; otherwise the
   * observed time is remembered.
   */
  function Update(s: State, observed: real): State {
    if !s.playing || s.looping then s
    else if observed < s.lastTime then Stop(s)
    else s.(lastTime := observed)
  }

  datatype Command = PlayCmd(clip: Clip) | StopCmd | SetPlayingCmd(playing: bool) | UpdateCmd(observed: real)

  function Step(s: State, cmd: Command): State {
    match cmd
    case PlayCmd(c) => Play(s, c)
    case StopCmd => Stop(s)
    case SetPlayingCmd(b) => SetPlaying(s, b)
    case UpdateCmd(t) => Update(s, t)
  }

  function Run(s: State, cmds: seq<Command>): State
    decreases |cmds|
  {
    if cmds == [] then s else Run(Step(s, cmds[0]), cmds[1..])
  }

  /** Updates only, one observed time per frame. */
  function RunUpdates(s: State, observed: seq<real>): State
    decreases |observed|
  {
    if observed == [] then s else RunUpdates(Update(s, observed[0]), observed[1..])
  }

  /** How many times `name` occurs in the event trail. */
  function Count(events: seq<string>, name: string): nat
    decreases |events|
  {
    if events == [] then 0
    else Count(events[..|events| - 1], name) + (if events[|events| - 1] == name then 1 else 0)
  }

  /** How many calls of `cmds` take `playing` from false to true. */
  function Starts(s: State, cmds: seq<Command>): nat
    decreases |cmds|
  {
    if cmds == [] then 0
    else
      var t := Step(s, cmds[0]);
      (if !s.playing && t.playing then 1 else 0) + Starts(t, cmds[1..])
  }

  /**
   * The discipline of the event trail: only play and stop events; a play event is
   * never followed by another play event; and the mesh is playing exactly when
   * the last event is a play event.
   */
  ghost predicate Disciplined(s: State) {
    && (forall i :: 0 <= i < |s.events| ==> s.events[i] == PLAY || s.events[i] == STOP)
    && (forall i :: 0 <= i < |s.events| - 1 && s.events[i] == PLAY ==> s.events[i + 1] == STOP)
    && (s.playing <==> |s.events| > 0 && s.events[|s.events| - 1] == PLAY)
  }

  /** `observed` never goes below `from`, frame after frame. */
  predicate NonDecreasingFrom(from: real, observed: seq<real>)
    decreases |observed|
  {
    observed == [] || (from <= observed[0] && NonDecreasingFrom(observed[0], observed[1..]))
  }

  lemma CountAppend(events: seq<string>, e: string, name: string)
    ensures Count(events + [e], name) == Count(events, name) + (if e == name then 1 else 0)
  {
  }

  /** Each call keeps the event discipline. */
  lemma StepKeepsDiscipline(s: State, cmd: Command)
    requires Disciplined(s)
    ensures Disciplined(Step(s, cmd))
  {
  }

  /** Every sequence of calls keeps the event discipline. */
  lemma {:induction false} RunKeepsDiscipline(s: State, cmds: seq<Command>)
    requires Disciplined(s)
    ensures Disciplined(Run(s, cmds))
    decreases |cmds|
  {
    if cmds != [] {
      StepKeepsDiscipline(s, cmds[0]);
      RunKeepsDiscipline(Step(s, cmds[0]), cmds[1..]);
    }
  }

  /**
   * One play event per false-to-true transition of `playing`, and no other:
   * calling `play` while already playing re-issues the clip silently.
   */
  lemma {:induction false} PlayEventsMatchStarts(s: State, cmds: seq<Command>)
    ensures Count(Run(s, cmds).events, PLAY) == Count(s.events, PLAY) + Starts(s, cmds)
    decreases |cmds|
  {
    if cmds != [] {
      StepPlayEvents(s, cmds[0]);
      PlayEventsMatchStarts(Step(s, cmds[0]), cmds[1..]);
    }
  }

  /** A single call adds a play event exactly when it starts playback. */
  lemma StepPlayEvents(s: State, cmd: Command)
    ensures var t := Step(s, cmd);
      Count(t.events, PLAY) == Count(s.events, PLAY) + (if !s.playing && t.playing then 1 else 0)
  {
    match cmd
    case PlayCmd(c) =>
      if !s.playing {
        CountAppend(s.events, PLAY, PLAY);
      }
    case StopCmd =>
      CountAppend(s.events, STOP, PLAY);
    case SetPlayingCmd(b) =>
      if !b {
        CountAppend(s.events, STOP, PLAY);
      }
    case UpdateCmd(t) =>
      if s.playing && !s.looping && t < s.lastTime {
        CountAppend(s.events, STOP, PLAY);
      }
  }

  /** Updates leave a mesh that is stopped, or playing a looping clip, exactly as it is. */
  lemma {:induction false} UpdatesIgnoredWhenStoppedOrLooping(s: State, observed: seq<real>)
    requires !s.playing || s.looping
    ensures RunUpdates(s, observed) == s
    decreases |observed|
  {
    if observed != [] {
      UpdatesIgnoredWhenStoppedOrLooping(Update(s, observed[0]), observed[1..]);
    }
  }

  /**
   * A non-looping playback keeps playing exactly as long as the observed times do
   * not decrease, and the first decrease adds exactly one stop event; while it
   * plays, the last time is the latest observation.
   */
  lemma {:induction false} NonLoopingStopsAtFirstWrap(s: State, observed: seq<real>)
    requires s.playing && !s.looping
    ensures var t := RunUpdates(s, observed);
      && (t.playing <==> NonDecreasingFrom(s.lastTime, observed))
      && t.looping == s.looping
      && t.events == s.events + (if t.playing then [] else [STOP])
      && (t.playing ==> t.lastTime == if observed == [] then s.lastTime else observed[|observed| - 1])
    decreases |observed|
  {
    if observed != [] {
      var u := Update(s, observed[0]);
      if observed[0] < s.lastTime {
        UpdatesIgnoredWhenStoppedOrLooping(u, observed[1..]);
      } else {
        NonLoopingStopsAtFirstWrap(u, observed[1..]);
        if observed[1..] != [] {
          assert observed[1..][|observed[1..]| - 1] == observed[|observed| - 1];
        }
      }
    }
  }

  /** Between two `play` calls the last observed time never decreases. */
  lemma {:induction false} LastTimeNeverDecreases(s: State, cmds: seq<Command>)
    requires forall i :: 0 <= i < |cmds| ==> !cmds[i].PlayCmd?
    ensures Run(s, cmds).lastTime >= s.lastTime
    decreases |cmds|
  {
    if cmds != [] {
      LastTimeNeverDecreases(Step(s, cmds[0]), cmds[1..]);
    }
  }

  /**
   * Over the whole life of a mesh, from initialization on: the event trail keeps
   * its discipline, and it holds one play event per start of playback.
   */
  lemma FromInitialization(cmds: seq<Command>)
    ensures Disciplined(Run(Initial, cmds))
    ensures Count(Run(Initial, cmds).events, PLAY) == Starts(Initial, cmds)
  {
    RunKeepsDiscipline(Initial, cmds);
    PlayEventsMatchStarts(Initial, cmds);
  }
}
