/** What the star draws of both engines share: the opacity cut, the icon
    threshold, a greeting's turn per frame, where an orbiting greeting sits
    relative to the sun, and the load state of an icon image. */
module Canvas {
  import opened Camera

  /** Stars at or below this opacity are not drawn at all. */
  const MinOpacity: real := 0.01
  /** Icons are drawn only above this size; smaller stars become dots. */
  const IconMinSize: real := 10.0
  /** Angle a greeting star gains per turn. */
  const GreetingSpin: real := 0.002

  /** Size and opacity chosen by a draw, before the visibility cut. */
  datatype Look = Look(size: real, opacity: real)

  /** An icon's `Image`: none attached (the intro module's placeholder star),
      still loading, loaded, or failed to load. A failed image reports
      `complete` like a loaded one, but has no pixels (`naturalWidth` 0). */
  datatype ImageState = NoImage | Pending | Loaded | Broken

  /** Horizontal distance from the sun's centre to a greeting drawn in intro
      mode: the orbit is scaled down by the zoom. */
  function GreetingOffset(orbitRadius: real, cosAngle: real, zoom: real): (d: real)
    requires zoom > 0.0
    ensures d >= 0.0
    ensures d * zoom == Abs(cosAngle * orbitRadius)
  {
    Abs(cosAngle * orbitRadius * (1.0 / zoom))
  }
}
