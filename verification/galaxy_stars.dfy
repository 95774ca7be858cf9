/** The main stars of the landing-page engine (`script.js`): eight greeting
    stars on a wide orbit around the sun, one pin per sector, and fifteen
    ambient stars. How each is set up, advanced per frame, and drawn as a
    function of the zoom and the current sector.

    Trigonometry is abstracted: a draw receives `sin(angle)` and
    `cos(angle)` as plain numbers, and the full turn 2*PI is the parameter
    `tau`. */
module GalaxyStars {
  import opened Camera
  import opened Sectors
  import opened Canvas

  datatype Kind = Greeting | Ambient | Pin(sector: string)

  /** `orbitSpeed` is used by ambient stars only. */
  datatype Star = Star(kind: Kind, index: nat, angle: real, orbitRadius: real, orbitSpeed: real)

  const GreetingCount: nat := 8
  const AmbientCount: nat := 15
  const GreetingOrbit: real := 1920.0

  const GreetingSize: real := 240.0
  const ActivePinSize: real := 80.0
  const DormantPinSize: real := 12.0
  const DormantPinOpacity: real := 0.6
  const AmbientSize: real := 30.0
  const AmbientOpacity: real := 0.4
  /** A front greeting closer than this to the sun horizontally is blacked out. */
  const SilhouetteReach: real := 150.0

  /** The random draws behind one ambient star, each in [0, 1). */
  datatype AmbientRoll = AmbientRoll(angle: real, radius: real, speed: real)

  function GreetingStar(i: nat, tau: real): Star {
    Star(Greeting, i, i as real * (tau / GreetingCount as real), GreetingOrbit, 0.0)
  }

  function PinStar(k: nat): Star
    requires k < |Keys|
  {
    Star(Pin(Keys[k]), k, 0.0, 0.0, 0.0)
  }

  function AmbientStar(i: nat, roll: AmbientRoll, tau: real): Star {
    Star(Ambient, i, roll.angle * tau, 600.0 + roll.radius * 1000.0, 0.0002 + roll.speed * 0.0005)
  }

  /** The star list built at start-up: greetings, then one pin per sector
      in table order, then the ambient stars when there are ambient icons. */
  function Setup(tau: real, ambientIcons: nat, rolls: nat -> AmbientRoll): (r: seq<Star>)
    ensures |r| == GreetingCount + SectorCount + (if ambientIcons > 0 then AmbientCount else 0)
    ensures forall i :: 0 <= i < GreetingCount ==> r[i].kind == Greeting
    ensures forall i :: GreetingCount <= i < GreetingCount + SectorCount ==> r[i].kind.Pin?
    ensures forall i :: GreetingCount + SectorCount <= i < |r| ==> r[i].kind == Ambient
  {
    var greetings := seq(GreetingCount, i requires 0 <= i => GreetingStar(i, tau));
    var pins := seq(SectorCount, k requires 0 <= k < SectorCount => PinStar(k));
    var orbiting := seq(AmbientCount, i requires 0 <= i => AmbientStar(i, rolls(i), tau));
    assert forall i :: 0 <= i < |orbiting| ==> orbiting[i] == AmbientStar(i, rolls(i), tau);
    var ambient := if ambientIcons > 0 then orbiting else [];
    greetings + pins + ambient
  }

  /** The greetings sit evenly spaced, an eighth of a turn apart, on the
      1920-pixel orbit, and every sector gets exactly one pin. */
  lemma SetupLayout(tau: real, ambientIcons: nat, rolls: nat -> AmbientRoll)
    ensures var r := Setup(tau, ambientIcons, rolls);
            && (forall i :: 0 <= i < GreetingCount ==>
                  r[i].angle == i as real * tau / 8.0 && r[i].orbitRadius == GreetingOrbit)
            && (forall key :: key in Keys ==>
                  exists i :: GreetingCount <= i < GreetingCount + SectorCount && r[i].kind == Pin(key))
            && (forall i, j :: GreetingCount <= i < j < GreetingCount + SectorCount ==>
                  r[i].kind != r[j].kind)
  {
    var r := Setup(tau, ambientIcons, rolls);
    KeysAreDistinct();
    forall key | key in Keys
      ensures exists i :: GreetingCount <= i < GreetingCount + SectorCount && r[i].kind == Pin(key)
    {
      var k :| 0 <= k < |Keys| && Keys[k] == key;
      assert r[GreetingCount + k].kind == Pin(key);
    }
    forall i, j | GreetingCount <= i < j < GreetingCount + SectorCount
      ensures r[i].kind != r[j].kind
    {
      assert r[i].kind == Pin(Keys[i - GreetingCount]);
      assert r[j].kind == Pin(Keys[j - GreetingCount]);
    }
  }

  /** `Star.update`: greetings turn by a fixed step, ambient stars by their
      own speed, pins keep still. */
  function Update(s: Star): (r: Star)
    ensures r.kind == s.kind && r.index == s.index && r.orbitRadius == s.orbitRadius
    ensures r.orbitSpeed == s.orbitSpeed
    ensures r.kind == Greeting ==> r.angle - s.angle == GreetingSpin
    ensures r.kind == Ambient ==> r.angle == s.angle + s.orbitSpeed
    ensures r.kind.Pin? ==> r == s
  {
    match s.kind
    case Greeting => s.(angle := s.angle + GreetingSpin)
    case Ambient => s.(angle := s.angle + s.orbitSpeed)
    case Pin(_) => s
  }

  /** `isBehindSun`: only greetings on the far half of their orbit. */
  predicate BehindSun(s: Star, sinAngle: real) {
    s.kind == Greeting && sinAngle < 0.0
  }

  function Appearance(s: Star, zoom: real, current: string, ambientIcons: nat): Look {
    if IntroMode(zoom) then
      if s.kind == Greeting then Look(GreetingSize, (zoom - 2.0) / 2.0) else Look(0.0, 0.0)
    else
      match s.kind
      case Pin(key) =>
        if current == key then Look(ActivePinSize, 1.0) else Look(DormantPinSize, DormantPinOpacity)
      case Ambient =>
        if ambientIcons > 0 then Look(AmbientSize, AmbientOpacity) else Look(0.0, 0.0)
      case Greeting => Look(0.0, 0.0)
  }

  datatype Filter = Plain | Blackout

  /** What one draw call puts on the canvas. */
  datatype Mark =
    | Hidden
    | Icon(size: real, alpha: real, filter: Filter, blur: real)
    | Dot(radius: real, alpha: real, filter: Filter)
  {
    predicate Blacked() {
      (Icon? && filter == Blackout) || (Dot? && filter == Blackout)
    }
  }

  /** `Star.draw`. Greetings show only in intro mode once their fade-in
      passes the opacity cut (zoom above 2.02), pins only in browse mode,
      ambient stars only in browse mode and when there are ambient icons. A
      drawn star is assigned the opacity the mode and sector call for (the
      canvas ignores an assignment above 1, which this model does not
      follow); it is an icon
      of the chosen size exactly when its image has loaded (every size the
      draw picks is above the icon threshold), and otherwise a dot whose
      radius is a quarter of that size. A failed image is caught by the `naturalWidth`
      test and drawn as a dot. A drawn greeting is blacked out exactly when
      it is on the front half of its orbit and horizontally within 150
      pixels of the sun's centre. */
  function Draw(s: Star, zoom: real, current: string, ambientIcons: nat,
                sinAngle: real, cosAngle: real, image: ImageState): (r: Mark)
    requires zoom > 0.0
    ensures s.kind == Greeting ==> (r.Hidden? <==> zoom <= 2.02)
    ensures s.kind.Pin? ==> (r.Hidden? <==> IntroMode(zoom))
    ensures s.kind == Ambient ==> (r.Hidden? <==> IntroMode(zoom) || ambientIcons == 0)
    ensures r.Icon? <==> !r.Hidden? && image == Loaded
    ensures !r.Hidden? ==> r.alpha == Appearance(s, zoom, current, ambientIcons).opacity
    ensures r.Icon? ==> r.size == Appearance(s, zoom, current, ambientIcons).size
    ensures r.Dot? ==> r.radius == Appearance(s, zoom, current, ambientIcons).size / 4.0
    ensures r.Blacked() <==>
              !r.Hidden? && !BehindSun(s, sinAngle) && s.kind == Greeting
              && GreetingOffset(s.orbitRadius, cosAngle, zoom) < SilhouetteReach
    ensures r.Icon? ==> r.blur == (if r.size > 50.0 then 40.0 else 15.0)
  {
    var look := Appearance(s, zoom, current, ambientIcons);
    if look.opacity <= MinOpacity then Hidden
    else
      var dx := if IntroMode(zoom) && s.kind == Greeting then GreetingOffset(s.orbitRadius, cosAngle, zoom) else 0.0;
      var filter :=
        if s.kind == Greeting && !BehindSun(s, sinAngle) && dx < SilhouetteReach then Blackout else Plain;
      if image == Loaded && look.size > IconMinSize then
        Icon(look.size, look.opacity, filter, if look.size > 50.0 then 40.0 else 15.0)
      else
        Dot(look.size / 4.0, look.opacity, filter)
  }

  /** Greeting stars: in intro mode size 240 and opacity (zoom - 2) / 2,
      otherwise opacity 0 and nothing drawn. */
  lemma GreetingRule(s: Star, zoom: real, current: string, ambientIcons: nat,
                     sinAngle: real, cosAngle: real, image: ImageState)
    requires s.kind == Greeting && zoom > 0.0
    ensures IntroMode(zoom) ==> Appearance(s, zoom, current, ambientIcons) == Look(240.0, (zoom - 2.0) / 2.0)
    ensures !IntroMode(zoom) ==> Appearance(s, zoom, current, ambientIcons).opacity == 0.0
    ensures !IntroMode(zoom) ==> Draw(s, zoom, current, ambientIcons, sinAngle, cosAngle, image) == Hidden
  {
  }

  /** Sector pins in browse mode: size 80 and full opacity exactly for the
      current sector, size 12 and opacity 0.6 for every other pin. */
  lemma PinRule(s: Star, zoom: real, current: string, ambientIcons: nat)
    requires s.kind.Pin? && !IntroMode(zoom)
    ensures Appearance(s, zoom, current, ambientIcons) == Look(80.0, 1.0) <==> current == s.kind.sector
    ensures Appearance(s, zoom, current, ambientIcons) == Look(12.0, 0.6) <==> current != s.kind.sector
  {
  }

  /** Ambient stars: size 30 and opacity 0.4 in browse mode only. */
  lemma AmbientRule(s: Star, zoom: real, current: string)
    requires s.kind == Ambient
    ensures Appearance(s, zoom, current, 6) == (if IntroMode(zoom) then Look(0.0, 0.0) else Look(30.0, 0.4))
  {
  }

  /** In browse mode, whatever sector is current, exactly one pin of the
      start-up list is highlighted when the current sector is a table key,
      and none otherwise (the observer may report ids outside the table);
      never are two stars highlighted. */
  lemma OneActivePin(tau: real, ambientIcons: nat, rolls: nat -> AmbientRoll, zoom: real, current: string)
    requires !IntroMode(zoom)
    ensures var r := Setup(tau, ambientIcons, rolls);
            current in Keys ==>
              exists i :: GreetingCount <= i < GreetingCount + SectorCount
                          && Appearance(r[i], zoom, current, ambientIcons).size == ActivePinSize
    ensures var r := Setup(tau, ambientIcons, rolls);
            current !in Keys ==>
              forall i :: 0 <= i < |r| ==> Appearance(r[i], zoom, current, ambientIcons).size != ActivePinSize
    ensures var r := Setup(tau, ambientIcons, rolls);
            forall i, j :: 0 <= i < j < |r|
                           && Appearance(r[i], zoom, current, ambientIcons).size == ActivePinSize
                           && Appearance(r[j], zoom, current, ambientIcons).size == ActivePinSize
                           ==> false
  {
    var r := Setup(tau, ambientIcons, rolls);
    SetupLayout(tau, ambientIcons, rolls);
    if current in Keys {
      var i :| GreetingCount <= i < GreetingCount + SectorCount && r[i].kind == Pin(current);
      assert Appearance(r[i], zoom, current, ambientIcons).size == ActivePinSize;
    }
  }
}
