/** The sizes and gates of the procedural sun that depend on the camera:
    its base radius, its pulse accumulator and the "click to enter" prompt.
    Both versions of the engine draw the sun identically. */
module Sun {
  import opened Options
  import opened Camera

  /** Radius of the sun's disc at zoom 2, and when the camera is pulled
      fully out. */
  const SunRadius: real := 130.0
  /** Advance of the pulse accumulator per frame. */
  const PulseStep: real := 0.005

  /** Base radius of the disc: grows with the zoom while the zoom is above 1,
      fixed otherwise. */
  function BaseRadius(zoom: real): (r: real)
    ensures zoom > 1.0 ==> r == SunRadius / 2.0 * zoom
    ensures zoom <= 1.0 ==> r == SunRadius
  {
    SunRadius * (if zoom > 1.0 then zoom * 0.5 else 1.0)
  }

  /** The pulse accumulator after a frame: it only ever grows. */
  function Pulse(pulse: real): (r: real)
    ensures r > pulse
  {
    pulse + PulseStep
  }

  /** Alpha of the prompt over the sun, or None when it is not drawn: shown
      only above zoom 3, fading in linearly over (3, 5]. */
  function PromptAlpha(zoom: real): (r: Option<real>)
    ensures r.Some? <==> zoom > DustThreshold
    ensures r.Some? ==> r.value == (zoom - DustThreshold) / 2.0
    ensures r.Some? ==> 0.0 < r.value
    ensures r.Some? && zoom <= StartZoom ==> r.value <= 1.0
    ensures r.Some? && zoom == StartZoom ==> r.value == 1.0
  {
    if zoom > 3.0 then Some((zoom - 3.0) / 2.0) else None
  }

  /** The prompt and the dust never share a frame: exactly one of the two
      is drawn at any zoom. */
  lemma PromptOrDust(zoom: real)
    ensures PromptAlpha(zoom).Some? <==> !DustVisible(zoom)
  {
  }

  /** In every state the page can reach the zoom stays above 1, so the
      fixed-radius branch is never taken: the disc radius is 65 * zoom and
      lies in (65, 325], and the prompt's alpha never exceeds 1. */
  lemma SunInReachableStates(c: CameraState)
    requires Reachable(c)
    ensures BaseRadius(c.zoom) == 65.0 * c.zoom
    ensures 65.0 < BaseRadius(c.zoom) <= 325.0
    ensures PromptAlpha(c.zoom).Some? ==> PromptAlpha(c.zoom).value <= 1.0
  {
  }
}
