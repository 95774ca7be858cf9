/** The landing-page engine's global state (`script.js`) and the events
    that change it: an animation frame, a click anywhere on the page, the
    section observer reporting a visible section, and a window resize.

    Each frame's random draws for the shooting star arrive inside the frame
    event. The background stars and the dust are left out: they are drawn
    from the state but never change it. */
module GalaxyScene {
  import opened Options
  import Camera
  import Sun
  import GalaxyStars
  import Canvas
  import Sectors
  import ShootingStar

  /** The canvas size and the centre every draw is relative to. */
  datatype Viewport = Viewport(width: nat, height: nat, centerX: real, centerY: real)

  /** The resize handler: the canvas takes the window's size and the
      centre moves to the middle of it. */
  function Resized(w: nat, h: nat): (v: Viewport)
    ensures v.width == w && v.height == h
    ensures v.centerX + v.centerX == w as real && v.centerY + v.centerY == h as real
  {
    Viewport(w, h, w as real / 2.0, h as real / 2.0)
  }

  datatype Scene = Scene(
    camera: Camera.CameraState,
    current: string,
    meteor: Option<ShootingStar.Meteor>,
    time: nat,
    pulse: real,
    view: Viewport,
    stars: seq<GalaxyStars.Star>)

  datatype Event =
    | Frame(roll: ShootingStar.Roll)
    | Click
    | Observe(id: string)
    | Resize(w: nat, h: nat)

  predicate ValidEvent(e: Event) {
    e.Frame? ==> ShootingStar.ValidRoll(e.roll)
  }

  predicate ValidEvents(events: seq<Event>) {
    forall k :: 0 <= k < |events| ==> ValidEvent(events[k])
  }

  /** The state the first `animate()` call starts from: the camera pulled
      out at zoom 5, the intro sector, no meteor, the star list built, and
      the canvas sized by the resize event the script dispatches itself
      before that call. */
  function Init(w: nat, h: nat, tau: real, ambientIcons: nat, rolls: nat -> GalaxyStars.AmbientRoll): (s: Scene)
    ensures s.camera == Camera.Start && s.current == Sectors.StartSector
    ensures s.meteor.None? && s.time == 0
    ensures s.view == Resized(w, h)
  {
    Scene(Camera.Start, Sectors.StartSector, None, 0, 0.0, Resized(w, h), GalaxyStars.Setup(tau, ambientIcons, rolls))
  }

  /** `stars.forEach(s => s.update())`. */
  function UpdateAll(stars: seq<GalaxyStars.Star>): (r: seq<GalaxyStars.Star>)
    ensures |r| == |stars|
    ensures forall k :: 0 <= k < |r| ==> r[k] == GalaxyStars.Update(stars[k])
  {
    seq(|stars|, k requires 0 <= k < |stars| => GalaxyStars.Update(stars[k]))
  }

  /** One event. A frame counts time, eases the camera, flies the meteor,
      turns the stars and pulses the sun; a click starts the dive (once);
      the observer moves the current sector; a resize re-centres the view.
      Nothing else changes. A new meteor is placed within the canvas of the
      last resize, the sizing `script.js` evidently intends (see
      `ShootingStar.SpawnAsWritten`). */
  function Step(s: Scene, e: Event): (r: Scene)
    requires ValidEvent(e)
    ensures e.Frame? <==> r.time == s.time + 1
    ensures !e.Frame? ==> r.time == s.time && r.stars == s.stars && r.meteor == s.meteor && r.pulse == s.pulse
    ensures e.Frame? ==> r.camera == Camera.Ease(s.camera) && r.pulse > s.pulse
    ensures e.Click? ==> r.camera == Camera.Click(s.camera)
    ensures !e.Frame? && !e.Click? ==> r.camera == s.camera
    ensures e.Observe? ==> r.current == e.id
    ensures !e.Observe? ==> r.current == s.current
    ensures e.Resize? ==> r.view == Resized(e.w, e.h)
    ensures !e.Resize? ==> r.view == s.view
  {
    match e
    case Frame(roll) =>
      s.(time := s.time + 1,
         camera := Camera.Ease(s.camera),
         meteor := ShootingStar.Update(s.meteor, roll, s.view.width as real, s.view.height as real).next,
         stars := UpdateAll(s.stars),
         pulse := Sun.Pulse(s.pulse))
    case Click => s.(camera := Camera.Click(s.camera))
    case Observe(id) => s.(current := id)
    case Resize(w, h) => s.(view := Resized(w, h))
  }

  /** The state after a sequence of events, applied first to last. */
  function Run(s: Scene, events: seq<Event>): Scene
    requires ValidEvents(events)
    decreases |events|
  {
    if |events| == 0 then s else Step(Run(s, events[..|events| - 1]), events[|events| - 1])
  }

  /** Number of animation frames among the events. */
  function Frames(events: seq<Event>): nat
    decreases |events|
  {
    if |events| == 0 then 0
    else Frames(events[..|events| - 1]) + (if events[|events| - 1].Frame? then 1 else 0)
  }

  /** The id of the last section the observer reported, or `fallback`. */
  function LastObserved(events: seq<Event>, fallback: string): string
    decreases |events|
  {
    if |events| == 0 then fallback
    else if events[|events| - 1].Observe? then events[|events| - 1].id
    else LastObserved(events[..|events| - 1], fallback)
  }

  /** The size of the last resize, if any. */
  function LastResize(events: seq<Event>): Option<(nat, nat)>
    decreases |events|
  {
    if |events| == 0 then None
    else if events[|events| - 1].Resize? then Some((events[|events| - 1].w, events[|events| - 1].h))
    else LastResize(events[..|events| - 1])
  }

  /** Whatever the events, the camera stays in a state the page can reach:
      pulled out and idle, or diving towards zoom 1 from above it. */
  lemma {:induction false} RunStaysReachable(s: Scene, events: seq<Event>)
    requires ValidEvents(events) && Camera.Reachable(s.camera)
    ensures Camera.Reachable(Run(s, events).camera)
    decreases |events|
  {
    if |events| > 0 {
      var init := events[..|events| - 1];
      RunStaysReachable(s, init);
      var p := Run(s, init);
      var e := events[|events| - 1];
      match e
      case Frame(_) => Camera.StepStaysReachable(p.camera, Camera.Tick);
      case Click => Camera.StepStaysReachable(p.camera, Camera.Clicked);
      case Observe(_) =>
      case Resize(_, _) =>
    }
  }

  /** `globalTime` counts exactly the animation frames. */
  lemma {:induction false} TimeCountsFrames(s: Scene, events: seq<Event>)
    requires ValidEvents(events)
    ensures Run(s, events).time == s.time + Frames(events)
    decreases |events|
  {
    if |events| > 0 {
      TimeCountsFrames(s, events[..|events| - 1]);
    }
  }

  /** The current sector is the section the observer reported last; until
      it reports one it stays what it was (`"intro"` from the start). */
  lemma {:induction false} LastObserveWins(s: Scene, events: seq<Event>)
    requires ValidEvents(events)
    ensures Run(s, events).current == LastObserved(events, s.current)
    decreases |events|
  {
    if |events| > 0 {
      LastObserveWins(s, events[..|events| - 1]);
    }
  }

  /** The view is centred on the canvas of the last resize; without one it
      is the view the scene started with. */
  lemma {:induction false} ViewFollowsLastResize(s: Scene, events: seq<Event>)
    requires ValidEvents(events)
    ensures LastResize(events).None? ==> Run(s, events).view == s.view
    ensures LastResize(events).Some? ==>
              var (w, h) := LastResize(events).value;
              Run(s, events).view == Resized(w, h)
              && Run(s, events).view.centerX * 2.0 == w as real
              && Run(s, events).view.centerY * 2.0 == h as real
    decreases |events|
  {
    if |events| > 0 {
      ViewFollowsLastResize(s, events[..|events| - 1]);
    }
  }

  /** Over any run the star list keeps its length. */
  lemma {:induction false} StarCountKept(s: Scene, events: seq<Event>)
    requires ValidEvents(events)
    ensures |Run(s, events).stars| == |s.stars|
    decreases |events|
  {
    if |events| > 0 {
      StarCountKept(s, events[..|events| - 1]);
    }
  }

  /** Angle a star gains per frame: `Star.update` in one number. */
  function Spin(a: GalaxyStars.Star): real {
    match a.kind
    case Greeting => Canvas.GreetingSpin
    case Ambient => a.orbitSpeed
    case Pin(_) => 0.0
  }

  /** An angle after `n` frames of a steady spin `x`. */
  function Turned(start: real, n: nat, x: real): real {
    if n == 0 then start else Turned(start, n - 1, x) + x
  }

  /** `n` frames of spin `x` add `n * x` to the angle. */
  lemma {:induction false} TurnedIsLinear(start: real, n: nat, x: real)
    ensures Turned(start, n, x) == start + n as real * x
  {
    if n > 0 {
      TurnedIsLinear(start, n - 1, x);
    }
  }

  /** Over any run star `k` keeps its kind, orbit, speed and index, and
      has turned by its spin once per frame: 0.002 for a greeting, its own
      speed for an ambient star, not at all for a pin. */
  lemma {:induction false} StarTurnsWithFrames(s: Scene, events: seq<Event>, k: nat)
    requires ValidEvents(events) && k < |s.stars|
    ensures |Run(s, events).stars| == |s.stars|
    ensures var a := s.stars[k];
            var b := Run(s, events).stars[k];
            b.kind == a.kind && b.index == a.index && b.orbitRadius == a.orbitRadius
            && b.orbitSpeed == a.orbitSpeed
            && b.angle == Turned(a.angle, Frames(events), Spin(a))
    decreases |events|
  {
    StarCountKept(s, events);
    if |events| > 0 {
      var init := events[..|events| - 1];
      StarTurnsWithFrames(s, init, k);
      var a := s.stars[k];
      var b := Run(s, init).stars[k];
      var n := Frames(init);
      if events[|events| - 1].Frame? {
        assert Frames(events) == n + 1;
        assert Run(s, events).stars[k] == GalaxyStars.Update(b);
        assert GalaxyStars.Update(b).angle == b.angle + Spin(a);
      } else {
        assert Frames(events) == n;
        assert Run(s, events).stars == Run(s, init).stars;
      }
    }
  }

  /** Over any run a greeting has turned by exactly 0.002 per frame and a
      pin has not changed at all. */
  lemma StarsByKind(s: Scene, events: seq<Event>, k: nat)
    requires ValidEvents(events) && k < |s.stars|
    ensures |Run(s, events).stars| == |s.stars|
    ensures s.stars[k].kind == GalaxyStars.Greeting ==>
              Run(s, events).stars[k].angle == s.stars[k].angle + Frames(events) as real * 0.002
    ensures s.stars[k].kind.Pin? ==> Run(s, events).stars[k] == s.stars[k]
  {
    StarTurnsWithFrames(s, events, k);
    SpinByKind(s.stars[k], Run(s, events).stars[k], Frames(events));
  }

  /** A star that has turned `n` frames at its spin, by kind. */
  lemma SpinByKind(a: GalaxyStars.Star, b: GalaxyStars.Star, n: nat)
    requires b.kind == a.kind && b.index == a.index && b.orbitRadius == a.orbitRadius
    requires b.orbitSpeed == a.orbitSpeed && b.angle == Turned(a.angle, n, Spin(a))
    ensures a.kind == GalaxyStars.Greeting ==> b.angle == a.angle + n as real * 0.002
    ensures a.kind == GalaxyStars.Ambient ==> b.angle == a.angle + n as real * a.orbitSpeed
    ensures a.kind.Pin? ==> b == a
  {
    TurnedIsLinear(a.angle, n, Spin(a));
  }
}
