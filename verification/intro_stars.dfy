/** The stars of the intro module's engine (`modules/01_galaxy_intro`):
    one star per asset of the manifest, greetings on a 1800-pixel orbit and
    tech stars pinned to the sectors round-robin. Unlike the landing-page
    engine, a greeting turns only while it is drawn in intro mode and
    dormant sector stars blink. The silhouette reaches 160 pixels from the
    sun's centre instead of 150, but needs a strictly positive sine, where
    the landing page also blacks out a greeting whose sine is 0. An image is
    drawn once it is `complete`, without the landing page's `naturalWidth`
    test.

    `sinAngle` and `cosAngle` stand for the sine and cosine of a greeting's
    angle after this draw's turn, `blink` for the sine driving a dormant
    star's blink, and `tau` for 2*PI. */
module IntroStars {
  import opened Options
  import opened Camera
  import opened Sectors
  import opened Canvas

  datatype AssetKind = GreetingAsset | TechAsset

  const GreetingAssets: nat := 15
  const TechAssets: nat := 7

  /** The asset list: fifteen greeting icons, then seven tech icons. */
  const Manifest: seq<AssetKind> :=
    seq(GreetingAssets + TechAssets, i => if i < GreetingAssets then GreetingAsset else TechAsset)

  const GreetingOrbit: real := 1800.0
  const GreetingSize: real := 200.0
  const ActiveSize: real := 80.0
  const DormantSize: real := 8.0
  /** A front greeting closer than this to the sun horizontally is blacked out. */
  const SilhouetteReach: real := 160.0
  const GreetingGlow: string := "#FFD700"

  datatype Star =
    | Greeter(index: nat, angle: real, orbitRadius: real)
    | Tech(index: nat, sector: string, baseX: int, baseY: int, color: string)

  /** The `Star` constructor: the asset is picked round-robin (with a
      greeting placeholder when there are no assets), greetings get an angle
      of index/15 of a turn, tech stars the sector `keys[index % 7]`. */
  function NewStar(index: nat, assets: seq<AssetKind>, tau: real): (s: Star)
    ensures s.index == index
    ensures s.Greeter? <==> |assets| == 0 || assets[index % |assets|] == GreetingAsset
    ensures s.Tech? ==> s.sector == Keys[index % SectorCount] && Describe(s.sector).Some?
  {
    var kind := if |assets| > 0 then assets[index % |assets|] else GreetingAsset;
    if kind == GreetingAsset then
      Greeter(index, index as real * (tau / 15.0), GreetingOrbit)
    else
      var key := SectorOf(index);
      var d := Describe(key).value;
      Tech(index, key, d.x, d.y, d.color)
  }

  /** Exactly one star per asset, in asset order. */
  function BuildStars(assets: seq<AssetKind>, tau: real): (r: seq<Star>)
    ensures |r| == |assets|
    ensures forall i :: 0 <= i < |r| ==> r[i] == NewStar(i, assets, tau)
  {
    seq(|assets|, i requires 0 <= i => NewStar(i, assets, tau))
  }

  lemma ManifestKinds()
    ensures |Manifest| == 22
    ensures forall i :: 0 <= i < |Manifest| ==> (Manifest[i] == GreetingAsset <==> i < GreetingAssets)
  {
  }

  /** For the shipped manifest: 22 stars, the fifteen greetings a fifteenth
      of a turn apart on the 1800-pixel orbit, the rest tech stars. */
  lemma ManifestGreetings(tau: real)
    ensures var r := BuildStars(Manifest, tau);
            && |r| == 22
            && (forall i :: 0 <= i < GreetingAssets ==> r[i] == Greeter(i, i as real * tau / 15.0, 1800.0))
            && (forall i :: GreetingAssets <= i < |r| ==> r[i].Tech?)
  {
    var r := BuildStars(Manifest, tau);
    ManifestKinds();
    forall i | 0 <= i < |r|
      ensures r[i].Greeter? <==> i < GreetingAssets
    {
      assert i % |Manifest| == i;
    }
  }

  /** Tech star `i` of the manifest sits in sector `keys[i % 7]`. */
  lemma ManifestTechSector(tau: real, i: nat)
    requires GreetingAssets <= i < |Manifest|
    ensures BuildStars(Manifest, tau)[i].Tech?
    ensures BuildStars(Manifest, tau)[i].sector == SectorOf(i)
  {
    ManifestGreetings(tau);
  }

  /** Where sector `k`'s star sits in the manifest's star list. */
  function TechIndexOf(k: nat): nat
    requires k < SectorCount
  {
    GreetingAssets + (k - GreetingAssets % SectorCount + SectorCount) % SectorCount
  }

  lemma ManifestSectorStar(tau: real, k: nat)
    requires k < SectorCount
    ensures GreetingAssets <= TechIndexOf(k) < |Manifest|
    ensures BuildStars(Manifest, tau)[TechIndexOf(k)].Tech?
    ensures BuildStars(Manifest, tau)[TechIndexOf(k)].sector == Keys[k]
  {
    SevenConsecutiveCoverAll(GreetingAssets);
    ManifestKinds();
    ManifestTechSector(tau, TechIndexOf(k));
  }

  /** The seven tech stars of the manifest (indices 15 to 21) cover each
      sector exactly once: sector `k` is the star at `TechIndexOf(k)`, and
      the tech stars' sectors `keys[i % 7]` are pairwise different. */
  lemma ManifestSectors(tau: real)
    ensures forall k: nat :: k < SectorCount ==>
              GreetingAssets <= TechIndexOf(k) < |Manifest|
              && BuildStars(Manifest, tau)[TechIndexOf(k)].Tech?
              && BuildStars(Manifest, tau)[TechIndexOf(k)].sector == Keys[k]
    ensures forall i: nat :: GreetingAssets <= i < |Manifest| ==>
              BuildStars(Manifest, tau)[i].Tech? && BuildStars(Manifest, tau)[i].sector == SectorOf(i)
    ensures forall i: nat, j: nat :: GreetingAssets <= i < j < |Manifest| ==> SectorOf(i) != SectorOf(j)
  {
    SevenConsecutiveCoverAll(GreetingAssets);
    ManifestKinds();
    forall k: nat | k < SectorCount
      ensures GreetingAssets <= TechIndexOf(k) < |Manifest|
      ensures BuildStars(Manifest, tau)[TechIndexOf(k)].Tech?
      ensures BuildStars(Manifest, tau)[TechIndexOf(k)].sector == Keys[k]
    {
      ManifestSectorStar(tau, k);
    }
    forall i: nat | GreetingAssets <= i < |Manifest|
      ensures BuildStars(Manifest, tau)[i].Tech? && BuildStars(Manifest, tau)[i].sector == SectorOf(i)
    {
      ManifestTechSector(tau, i);
    }
  }

  datatype Glow = Glow(color: string, blur: real)

  /** What one draw puts on the canvas. A silhouette is a black shape with
      no glow; otherwise the glow is set before drawing. */
  datatype Mark =
    | Hidden
    | Icon(size: real, alpha: real, silhouette: bool, glow: Option<Glow>)
    | Dot(radius: real, alpha: real, silhouette: bool, glow: Option<Glow>)

  /** A draw's mark and the star as it stands afterwards. */
  datatype Drawn = Drawn(mark: Mark, star: Star)

  /** The blinking opacity of a dormant sector star: `blink` is the sine of
      the star's clock phase, and the opacity swings 0.2 either side of 0.5
      with it, so it stays within [0.3, 0.7] and above the opacity cut. */
  function DormantOpacity(blink: real): (o: real)
    requires -1.0 <= blink <= 1.0
    ensures o == 0.5 + 0.2 * blink
    ensures 0.3 <= o <= 0.7
  {
    0.5 + blink * 0.2
  }

  /** Size and opacity the draw picks for the mode and the sector. */
  function Appearance(s: Star, zoom: real, current: string, blink: real): Look
    requires -1.0 <= blink <= 1.0
  {
    if IntroMode(zoom) then
      if s.Greeter? then Look(GreetingSize, (zoom - 2.0) / 2.0) else Look(0.0, 0.0)
    else if s.Greeter? then Look(0.0, 0.0)
    else if current == s.sector then Look(ActiveSize, 1.0)
    else Look(DormantSize, DormantOpacity(blink))
  }

  /** `Star.draw` of the intro module, with `currentSector` holding a value
      and a failed image drawn as a dot. A greeting turns by 0.002 exactly
      on intro-mode draws and is drawn only once its fade-in (zoom - 2) / 2
      passes the opacity cut (zoom above 2.02), 200 pixels wide; the fade is
      the alpha assigned, which the canvas ignores while it is above 1; a tech star
      never moves and is drawn exactly in browse mode, 80 pixels wide and
      opaque for the current sector and as a blinking 8-pixel dot otherwise.
      A large star is an icon exactly when its image has loaded. The
      silhouette is used exactly for a drawn greeting in front of the sun
      (positive sine) horizontally within 160 pixels of its centre, and then
      no glow is set; otherwise the glow has the star's colour. */
  function Draw(s: Star, zoom: real, current: string, blink: real,
                sinAngle: real, cosAngle: real, image: ImageState): (r: Drawn)
    requires zoom > 0.0 && -1.0 <= blink <= 1.0
    ensures s.Greeter? ==> r.star == (if IntroMode(zoom) then s.(angle := s.angle + GreetingSpin) else s)
    ensures s.Tech? ==> r.star == s
    ensures s.Greeter? ==> (r.mark.Hidden? <==> zoom <= 2.02)
    ensures s.Tech? ==> (r.mark.Hidden? <==> IntroMode(zoom))
    ensures s.Greeter? && !r.mark.Hidden? ==>
              r.mark.alpha == (zoom - 2.0) / 2.0 && (r.mark.Icon? <==> image == Loaded)
              && (r.mark.Icon? ==> r.mark.size == 200.0) && (r.mark.Dot? ==> r.mark.radius == 100.0)
    ensures s.Tech? && !IntroMode(zoom) && current == s.sector ==>
              r.mark.alpha == 1.0 && (r.mark.Icon? <==> image == Loaded)
              && (r.mark.Icon? ==> r.mark.size == 80.0) && (r.mark.Dot? ==> r.mark.radius == 40.0)
    ensures s.Tech? && !IntroMode(zoom) && current != s.sector ==>
              r.mark.Dot? && r.mark.radius == DormantSize / 2.0 && r.mark.alpha == DormantOpacity(blink)
    ensures !r.mark.Hidden? ==>
              (r.mark.silhouette <==>
                 s.Greeter? && sinAngle > 0.0
                 && GreetingOffset(s.orbitRadius, cosAngle, zoom) < SilhouetteReach)
    ensures !r.mark.Hidden? ==> (r.mark.glow.None? <==> r.mark.silhouette)
    ensures !r.mark.Hidden? && r.mark.glow.Some? ==>
              r.mark.glow.value.color == (if s.Tech? then s.color else GreetingGlow)
  {
    var look := Appearance(s, zoom, current, blink);
    var next := if IntroMode(zoom) && s.Greeter? then s.(angle := s.angle + GreetingSpin) else s;
    if look.opacity <= MinOpacity then Drawn(Hidden, next)
    else
      var overSun := s.Greeter? && sinAngle > 0.0
                     && GreetingOffset(s.orbitRadius, cosAngle, zoom) < SilhouetteReach;
      var glow :=
        if overSun then None
        else Some(Glow(if s.Tech? then s.color else GreetingGlow, if look.size > 50.0 then 50.0 else 10.0));
      if image == Loaded && look.size > IconMinSize then Drawn(Icon(look.size, look.opacity, overSun, glow), next)
      else Drawn(Dot(look.size / 2.0, look.opacity, overSun, glow), next)
  }

  /** The corrected draw treats a failed image as one still loading: it
      never tries to draw it, and falls back to the dot. */
  lemma BrokenImageFallsBack(s: Star, zoom: real, current: string, blink: real,
                             sinAngle: real, cosAngle: real)
    requires zoom > 0.0 && -1.0 <= blink <= 1.0
    ensures Draw(s, zoom, current, blink, sinAngle, cosAngle, Broken)
            == Draw(s, zoom, current, blink, sinAngle, cosAngle, Pending)
    ensures !Draw(s, zoom, current, blink, sinAngle, cosAngle, Broken).mark.Icon?
  {
  }

  /** `Star.draw` exactly as the module is written; None stands for a throw
      that ends the frame. It throws in two cases. `currentSector` is never
      declared in that file, so until the section observer first assigns it
      (`current` is None) a tech star drawn in browse mode reads it and
      throws a ReferenceError. And the image test is only `complete`, which
      a failed image passes too, so a failed image drawn larger than the
      icon threshold (a visible greeting, or the current sector's star)
      reaches `drawImage`, which throws an InvalidStateError for an image in
      the broken state. Otherwise it draws what the corrected draw does. */
  function DrawAsWritten(s: Star, zoom: real, current: Option<string>, blink: real,
                         sinAngle: real, cosAngle: real, image: ImageState): (r: Option<Drawn>)
    requires zoom > 0.0 && -1.0 <= blink <= 1.0
    ensures r.None? <==>
              (s.Tech? && !IntroMode(zoom) && current.None?)
              || (image == Broken
                  && ((s.Greeter? && zoom > 2.02)
                      || (s.Tech? && !IntroMode(zoom) && current == Some(s.sector))))
    ensures r.Some? ==> r.value == Draw(s, zoom, current.GetOr(StartSector), blink, sinAngle, cosAngle, image)
  {
    if s.Tech? && !IntroMode(zoom) && current.None? then None
    else
      var id := current.GetOr(StartSector);
      var look := Appearance(s, zoom, id, blink);
      if image == Broken && look.opacity > MinOpacity && look.size > IconMinSize then None
      else Some(Draw(s, zoom, id, blink, sinAngle, cosAngle, image))
  }

  /** A failed greeting icon stops the intro: at zoom 5, the start, the
      first greeting is drawn 200 pixels wide and its broken image throws,
      whatever the section observer has reported. */
  lemma BrokenImageThrows(tau: real, current: Option<string>)
    ensures var star := BuildStars(Manifest, tau)[0];
            star.Greeter? && DrawAsWritten(star, StartZoom, current, 0.0, 0.0, 1.0, Broken).None?
  {
    ManifestGreetings(tau);
  }

  /** The failing input: once the unlock has pulled the camera into browse
      mode (which it always does, see `BrowseModeIsReached`), a tech star
      drawn before any section was reported visible throws. In the module's
      frame the tech stars are drawn first and the next frame is requested
      only at the end, so the render loop stops there. */
  lemma UndeclaredSectorThrows(tau: real)
    ensures var star := BuildStars(Manifest, tau)[15];
            star.Tech? && DrawAsWritten(star, 1.5, None, 0.0, 0.0, 1.0, Loaded).None?
  {
    ManifestGreetings(tau);
  }

  /** After the unlock click the zoom is in browse mode within 20000 frames
      (5000 per unit of the starting gap of 4). */
  lemma BrowseModeIsReached()
    ensures !IntroMode(EaseFrames(Click(Start), 20000).zoom)
  {
    var c := Click(Start);
    EaseSettles(c, 20000);
    EaseStaysBetween(c, 20000);
  }

  /** The corrected engine declares `currentSector` with the landing
      page's start value: every draw then succeeds, agrees with the module
      wherever the module does not throw, and before the first report every
      sector star is dormant. */
  lemma DeclaredSectorNeverThrows(s: Star, zoom: real, current: Option<string>, blink: real,
                                  sinAngle: real, cosAngle: real, image: ImageState)
    requires zoom > 0.0 && -1.0 <= blink <= 1.0
    ensures var fixed := Draw(s, zoom, current.GetOr(StartSector), blink, sinAngle, cosAngle, image);
            DrawAsWritten(s, zoom, current, blink, sinAngle, cosAngle, image) in {None, Some(fixed)}
    ensures image != Broken && current.Some? ==>
              DrawAsWritten(s, zoom, current, blink, sinAngle, cosAngle, image).Some?
    ensures s.Tech? && s.sector in Keys && !IntroMode(zoom) ==>
              Draw(s, zoom, StartSector, blink, sinAngle, cosAngle, image).mark.Dot?
  {
  }
}
