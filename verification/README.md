# Galaxy engine — a Dafny model

This project models the canvas "galaxy engine" of a personal portfolio page.
It covers two versions of the engine:

- the landing-page engine and its small widgets, in `script.js`;
- the intro module's engine, in `modules/01_galaxy_intro/script.js`.

Both engines hold a single camera zoom. A frame eases the zoom toward a target. A click, or the
`galaxyControl.unlock` bridge, starts a one-shot "explosion" that pulls the
camera back from the sun. Above zoom 2 the scene is in intro mode: greeting
stars orbit the sun. On the landing page the sun also hides the far half of
their ring through a fixed back-to-front draw order; the intro module draws
every greeting after the sun. At zoom 2 and below the scene is in browse
mode. There, one pin per content sector is shown, and the pin of the
section the page observer last reported is highlighted. The landing page
also has:

- a shooting star;
- the "cyber wall" brick game, with a Fisher-Yates shuffle and a trap
  cascade;
- the slide deck of the activity console.

The modules follow the program's parts:

| module | file | what it holds |
|---|---|---|
| `Camera` | camera.dfy | zoom, target and explosion flag; ease, click, unlock; the reachable-state invariant; convergence of the ease |
| `Sun` | sun.dfy | the sun's zoom-dependent radius, its pulse, and the "click to enter" prompt |
| `Sectors` | sectors.dfy | the sector table and the round-robin sector assignment |
| `GalaxyStars` | galaxy_stars.dfy | the landing page's greetings, pins and ambient stars: set-up, update, draw decision |
| `IntroStars` | intro_stars.dfy | the intro module's stars, built from the asset manifest, and their draw decision |
| `Compositor` | compositor.dfy | the layered draw order of a frame in both engines |
| `ShootingStar` | shooting_star.dfy | spawn, flight and retirement of the meteor |
| `GalaxyScene` | scene.dfy | the landing page's global state and the four events that change it |
| `Bricks` | bricks.dfy | `shuffleBricks` and `triggerCascade` |
| `Slides` | slides.dfy | `moveSlide`, with JavaScript's remainder |

Some inputs become parameters:

- Each `Math.random()` is a number in [0, 1) passed in.
- Each sine, cosine and `Date.now()` blink is a number passed in.
- The constant 2·π is a parameter `tau`.
- An icon image's load state is one of four values: none, loading, loaded, failed.

Numbers are exact reals. No operation here depends on floating-point
rounding. The meteor's life reaches zero on the same frame with exact and
with binary arithmetic.

The two engines differ in a few constants and tests, and the model keeps
each engine's own:

- Silhouette: the landing page blacks out a front greeting within 150
  pixels of the sun's centre when its sine is at least 0 (script.js:188-191).
  The intro module uses 160 pixels and a strictly positive sine
  (modules/01_galaxy_intro/script.js:209-213).
- Dormant sector star: 12 pixels wide at opacity 0.6 on the landing page
  (script.js:166), 8 pixels wide and blinking in the intro module
  (modules/01_galaxy_intro/script.js:190-193).
- Icon test: the landing page draws an image only when it has pixels, and
  inside a `try` (script.js:202-204); the intro module only asks whether
  the image is `complete` (modules/01_galaxy_intro/script.js:224).

The cascade's offset is `floor(r * 10) - 5`, which ranges over -5..4. The
comment beside it (script.js:537) says "+/- 5"; `Bricks.OffsetSpan` shows
that +5 is never drawn.

## Model

| member | source | states |
|---|---|---|
| Camera.Ease | script.js:298 | Within the 0.01 snap tolerance the camera is untouched. Otherwise the zoom moves strictly toward the target without passing it, and the remaining gap becomes exactly 0.98 of what it was. |
| Camera.Click | script.js:335-337 | A click on a camera at rest starts the explosion toward zoom 1. During the explosion a click changes nothing. The zoom itself never jumps. |
| Camera.Unlock | modules/01_galaxy_intro/script.js:413-414 | The bridge sets the flag and the target 1 unconditionally, without moving the zoom. |
| Camera.StartIsReachable | script.js:46 | The start state (zoom 5, target 5, not exploding) is a reachable state. |
| Camera.StepStaysReachable | script.js:298 | A frame, a click or an unlock call keeps the camera reachable. Reachable means either at rest at zoom 5, or exploding toward 1 from a zoom in (1, 5]. |
| Camera.RunStaysReachable | modules/01_galaxy_intro/script.js:397-414 | Any sequence of frames, clicks and unlock calls keeps the camera reachable. So the zoom always stays in (1, 5]. |
| Camera.UnlockIsOneShot | modules/01_galaxy_intro/script.js:397-414 | A second click, or a second unlock call, changes nothing. On a camera at rest the click and the unlock have the same effect. |
| Camera.ExplodingIsTerminal | script.js:335-337 | Once the explosion has started, no sequence of signals clears the flag, and the target can only become 1. |
| Camera.ZoomNeverRisesAfterUnlock | script.js:298 | From a reachable exploding state the zoom never rises again. |
| Camera.TargetWrittenOnce | modules/01_galaxy_intro/script.js:397-414 | In any session from a reachable state the target changes at most once. It changes exactly once when the camera was at rest and some click or unlock arrives. |
| Camera.EaseStaysBetween | modules/01_galaxy_intro/script.js:339-341 | However many frames pass, the eased zoom stays between its starting value and the target (no overshoot). |
| Camera.EaseGapShrinks | script.js:298 | Until it snaps, the gap after n frames is the starting gap shrunk n times by the factor 0.98. |
| Camera.ShrunkIsPow | script.js:298 | Shrinking a gap n times by 0.98 is scaling it by 0.98^n. |
| Camera.ShrunkBelowTolerance | script.js:298 | A gap g shrunk for at least 5000 g frames is inside the 0.01 snap tolerance. |
| Camera.EaseSettles | script.js:298 | The ease always arrives. Within 5000 frames per unit of starting gap the zoom is inside the snap tolerance. |
| Sun.BaseRadius | script.js:216 | The disc's radius is 65 · zoom above zoom 1, and 130 at or below it. |
| Sun.Pulse | script.js:217 | The pulse accumulator strictly grows every frame. |
| Sun.PromptAlpha | script.js:268-270 | The prompt is drawn exactly above zoom 3, with alpha (zoom - 3) / 2. That alpha is positive, at most 1 within the reachable zooms, and exactly 1 at zoom 5. |
| Sun.PromptOrDust | script.js:87 | At every zoom exactly one of the dust swarm and the prompt is drawn. |
| Sun.SunInReachableStates | modules/01_galaxy_intro/script.js:243 | In every reachable state the disc's radius is 65 · zoom, within (65, 325]. The fixed-radius branch is never taken. |
| Sectors.Describe | script.js:9-17 | The table answers exactly for the seven sector keys. |
| Sectors.KeysAreDistinct | modules/01_galaxy_intro/script.js:5-26 | The table has seven pairwise different keys. |
| Sectors.PinsDoNotOverlap | script.js:9-17 | No two sector pins share a resting position. |
| Sectors.SectorOf | modules/01_galaxy_intro/script.js:153-156 | A round-robin index always lands on a key of the table. |
| Sectors.SevenConsecutiveCoverAll | modules/01_galaxy_intro/script.js:153-156 | Any seven consecutive indices are assigned all seven sectors, each exactly once. The index for each sector is given explicitly. |
| GalaxyStars.Setup | script.js:289-291 | The landing page builds 8 greetings, then 7 pins, then 15 ambient stars. The ambient stars are built only when there are ambient icons. |
| GalaxyStars.SetupLayout | script.js:116-119 | The greetings sit an eighth of a turn apart on the 1920-pixel orbit. Each sector gets exactly one pin. |
| GalaxyStars.Update | script.js:143-146 | A greeting turns by exactly 0.002 per frame and an ambient star by its own orbit speed. A pin never changes. No star changes kind, index, orbit or speed. |
| GalaxyStars.Draw | script.js:154-209 | The visibility of each kind: greetings exactly above zoom 2.02, pins exactly in browse mode, ambient stars in browse mode when icons exist. A drawn star has the opacity its mode and sector call for. It is an icon of the chosen size exactly when its image has loaded, and otherwise a dot whose radius is a quarter of that size. A drawn greeting is blacked out exactly when it is not behind the sun and is horizontally within 150 px of the centre. |
| GalaxyStars.GreetingRule | script.js:157-162 | In intro mode a greeting has size 240 and is assigned the alpha (zoom - 2) / 2. The canvas ignores an alpha above 1, so above zoom 4 the greeting keeps the alpha already in force. Otherwise its opacity is 0 and it is not drawn. |
| GalaxyStars.PinRule | script.js:164-166 | In browse mode a pin has size 80 and opacity 1 exactly when its sector is the current one. Otherwise it has size 12 and opacity 0.6. |
| GalaxyStars.AmbientRule | script.js:174-178 | An ambient star has size 30 and opacity 0.4 in browse mode, and nothing in intro mode. |
| GalaxyStars.OneActivePin | script.js:165 | In browse mode, exactly one star of the start-up list is highlighted when the current sector is a table key, and none is when it is not. No two stars are ever highlighted together. |
| Canvas.GreetingOffset | script.js:189 | A greeting's horizontal distance from the sun's centre is never negative, and times the zoom it is the unscaled distance. |
| IntroStars.NewStar | modules/01_galaxy_intro/script.js:134-161 | A star takes its asset round-robin, or a greeting placeholder when there are no assets. A tech star lands in sector `keys[index % 7]`, which the table describes. |
| IntroStars.BuildStars | modules/01_galaxy_intro/script.js:330-332 | The module builds exactly one star per asset, in asset order. |
| IntroStars.ManifestKinds | modules/01_galaxy_intro/script.js:31-67 | The manifest holds 22 assets: 15 greetings, then 7 tech icons. |
| IntroStars.ManifestGreetings | modules/01_galaxy_intro/script.js:146-150 | The 15 greetings sit a fifteenth of a turn apart on the 1800-pixel orbit. The remaining stars are tech stars. |
| IntroStars.ManifestTechSector | modules/01_galaxy_intro/script.js:153-159 | Tech star i of the manifest sits in sector `keys[i % 7]`. |
| IntroStars.ManifestSectorStar | modules/01_galaxy_intro/script.js:153-159 | Every sector has a tech star, at an index given explicitly. |
| IntroStars.ManifestSectors | modules/01_galaxy_intro/script.js:153-159 | The seven tech stars cover each sector exactly once. |
| IntroStars.DormantOpacity | modules/01_galaxy_intro/script.js:192 | A dormant star's opacity is 0.5 + 0.2 · sin of its clock phase, so it blinks within [0.3, 0.7] and is always above the opacity cut. |
| IntroStars.Draw | modules/01_galaxy_intro/script.js:163-234 | A greeting turns by 0.002 exactly on intro-mode draws. It is drawn exactly above zoom 2.02, with the assigned alpha (zoom - 2) / 2 (an alpha above 1 is ignored by the canvas), as a 200-pixel icon when its image has loaded and a 200-pixel dot otherwise. A tech star never moves and is drawn exactly in browse mode: opaque and 80 pixels wide for the current sector, otherwise an 8-pixel dot with the blinking opacity of `IntroStars.DormantOpacity`. The silhouette is used exactly for a drawn front greeting within 160 px of the centre, and then no glow is set; otherwise the glow has the star's colour. A failed image is drawn as a dot. |
| IntroStars.DrawAsWritten | modules/01_galaxy_intro/script.js:182-225 | As written, a draw throws in exactly two cases. One is a tech star in browse mode while `currentSector` is still unassigned. The other is a failed image on a visible greeting or on the current sector's star, which reaches `drawImage`. Every other draw is the corrected draw. |
| IntroStars.BrokenImageThrows | modules/01_galaxy_intro/script.js:224-225 | A concrete failing draw: manifest star 0 is a greeting, and drawing it at the start zoom 5 with a failed image throws, whatever sector has been reported. |
| IntroStars.BrokenImageFallsBack | modules/01_galaxy_intro/script.js:224-232 | The corrected draw treats a failed image as one still loading, so it never draws an icon from it. |
| IntroStars.UndeclaredSectorThrows | modules/01_galaxy_intro/script.js:186 | A concrete failing draw: manifest star 15 is a tech star, and drawing it at zoom 1.5 before any observer report throws. |
| IntroStars.BrowseModeIsReached | modules/01_galaxy_intro/script.js:339-341 | After the unlock click the zoom enters browse mode within 20000 frames. So the failing read is reached. |
| IntroStars.DeclaredSectorNeverThrows | script.js:46 | With `currentSector` declared as "intro", every draw succeeds. It agrees with the module wherever the module does not throw. Before the first report every sector star is dormant. |
| Compositor.Collect | script.js:308-309 | One `filter` pass yields only stars of the list that are in the layer. |
| Compositor.CollectCounts | script.js:308-309 | The pass yields each star of the layer exactly once and no other star. |
| Compositor.CollectNoSun | script.js:308-309 | The pass never yields the sun. |
| Compositor.CollectInOrder | script.js:308-309 | The pass keeps the stars in list order. |
| Compositor.LayerOf | script.js:149-152 | A star is in the far-greeting layer exactly when it is behind the sun. It is in the near-greeting layer exactly when it is a greeting that is not. |
| Compositor.FrameDrawsEachOnce | script.js:307-320 | Every star of the list is drawn exactly once per frame, and the sun exactly once. |
| Compositor.FrameIsRanked | script.js:307-320 | A frame never draws a lower layer after a higher one. The order is ambient stars, pins, far greetings, the sun, then near greetings. |
| Compositor.StarAgainstSun | script.js:313-320 | A star is drawn after the sun exactly when it is a greeting whose angle has a non-negative sine. |
| Compositor.FrameSplitsGreetingsAtSun | script.js:313-320 | The same split, for every star of the frame at once. |
| Compositor.IntroFrameSplitsAtSun | modules/01_galaxy_intro/script.js:351-357 | In the module's frame each star is drawn once and the sun once. Stars before the sun are exactly the tech stars; stars after it are exactly the greetings. |
| ShootingStar.Spawn | script.js:98-99 | A new meteor starts in the top half of the canvas with life 1, heading left at speed (10, 20] and down at speed [2, 7). |
| ShootingStar.SpawnAsWritten | script.js:99 | As written, a meteor's coordinate is a number exactly when the global `width` or `height` holds one. Then it is `Spawn`'s coordinate. |
| ShootingStar.UnassignedSizeHidesMeteor | script.js:45 | With the globals never assigned, every meteor is placed at (NaN, NaN). |
| ShootingStar.Advance | script.js:102 | One frame moves the meteor by its velocity and takes 0.02 off its life. |
| ShootingStar.Update | script.js:97-108 | An existing meteor is always moved and drawn, and no second meteor is born beside it. A new one is born, moved and drawn only on a frame without one whose draw is below 0.01. The meteor survives the frame exactly when its life is still positive. |
| ShootingStar.GlideMoves | script.js:102 | After n frames of flight a meteor has moved n times its velocity and lost n · 0.02 of life. |
| ShootingStar.FlightEnds | script.js:106 | A meteor with j steps of life flies undisturbed for fewer than j frames, whatever the draws, and is gone after exactly j. |
| ShootingStar.MeteorLifetime | script.js:97-108 | A meteor is drawn on its birth frame and the 49 frames after it, fading to 1 - 0.02 · (n + 1), and is gone after the 50th. |
| GalaxyScene.Resized | script.js:328-331 | After a resize the canvas has the window's size and the centre is its midpoint. |
| GalaxyScene.Init | script.js:46 | The first `animate()` call starts with the camera at rest at zoom 5, in sector "intro", with no meteor, at time 0, and centred by the resize the script dispatches before that call. |
| GalaxyScene.Step | script.js:296-303 | A frame advances time by one, eases the camera and pulses the sun. A click starts the dive, the observer sets the sector, and a resize re-centres the view. Each event changes only its own part of the state. |
| GalaxyScene.RunStaysReachable | script.js:335-337 | Whatever events arrive, the landing page's camera stays reachable. |
| GalaxyScene.TimeCountsFrames | script.js:297 | The global time counts exactly the animation frames. |
| GalaxyScene.LastObserveWins | script.js:348-350 | The current sector is the id the observer reported last. Before any report it is what it was before. |
| GalaxyScene.ViewFollowsLastResize | script.js:328-332 | The view is centred on the canvas of the last resize, and unchanged when there was none. |
| GalaxyScene.StarCountKept | script.js:307 | No event adds or removes stars. |
| GalaxyScene.StarTurnsWithFrames | script.js:143-146 | Over any run each star keeps its kind, index, orbit and speed, and has turned by its own spin once per frame. |
| GalaxyScene.StarsByKind | script.js:143-146 | Over any run a greeting has turned by exactly 0.002 per frame, and a pin has not changed at all. |
| Bricks.Pick | script.js:450 | `Math.floor(Math.random() * n)` lies in 0..n-1. |
| Bricks.PickIsFloor | script.js:450 | The pick is the floor of the draw times n. |
| Bricks.SwapPermutes | script.js:451 | Exchanging two bricks keeps every brick, as often as before. |
| Bricks.FisherYatesPermutes | script.js:449-452 | The Fisher-Yates pass only rearranges the bricks: the same bricks, each as often as before. |
| Bricks.FisherYatesKeepsTop | script.js:449-452 | A pass from index i down leaves every position above i alone. |
| Bricks.FisherYatesIdentity | script.js:449-452 | When every draw picks its own position, the pass changes nothing. |
| Bricks.Shuffle | script.js:441-458 | The in-place loop returns a permutation of the bricks. It is exactly the reference Fisher-Yates pass for the same draws. |
| Bricks.CascadeCount | script.js:524 | A cascade tries to open 2, 3 or 4 bricks. |
| Bricks.Offset | script.js:538 | A cascade tick aims between 5 below and 4 above the origin. |
| Bricks.OffsetSpan | script.js:536-538 | Every offset from -5 to 4 can be drawn, and +5 never can. |
| Bricks.TriggerCascade | script.js:517-553 | A cascade opens at most its count. It stops early only after 21 ticks. Each opened brick is in the grid, is not the origin, was hidden before, lies within -5..4 of the origin, and is opened once. Exactly the opened bricks change. |
| Slides.JsRem | script.js:664 | JavaScript's `%` lies in [0, m) on non-negative dividends and in (-m, 0] on negative ones. |
| Slides.JsRemNatural | script.js:664 | On a non-negative dividend JavaScript's `%` is the Euclidean remainder. |
| Slides.JsRemNegative | script.js:664 | For a negative dividend, JavaScript's remainder is 0 exactly when the Euclidean one is. Otherwise it is the Euclidean one minus the modulus. |
| Slides.LastActive | script.js:656-662 | The scan finds the last active slide, or 0 when none is active. |
| Slides.MoveSlide | script.js:652-666 | An empty deck is left alone. Otherwise the move breaks exactly when JavaScript's remainder is negative, and then every flag is cleared. When it does not break, exactly the slide at the remainder is active. |
| Slides.Place | script.js:665 | Making `slides[next]` active breaks exactly when `next` lies outside the deck, and then leaves every flag cleared. Otherwise exactly the slide at `next` is active. |
| Slides.ShiftedRem | script.js:664 | JavaScript's remainder of x + m is the Euclidean remainder of x when x + m is not negative. Otherwise it is negative exactly when m does not divide x. |
| Slides.PlaceLands | script.js:664-665 | `MoveLands` in terms of the slide count and the sum of the last active index and the step. |
| Slides.MoveLands | script.js:664-665 | A move not more than one length backwards past slide 0 lands on (last + n) mod length. A move further back breaks exactly when (last + n) is not a multiple of the length. |
| Slides.MoveBackReturns | script.js:646-650 | From a deck with one active slide, a manual move of at most a full turn either way, followed by the opposite move, comes back to the same deck. |
| Slides.ShortMovesNeverBreak | script.js:637-640 | The auto-advance, and any move at most one length backwards, never breaks and leaves exactly one active slide. |
| Slides.LongMoveBackBreaks | script.js:664-665 | Moving 5 back from the first of three slides indexes slide -2 and breaks with no slide active. |

## Left out

- The deep-space `BackgroundStar`s and the `Dust` swarm's motion are drawing only; they never change the state. Only the dust's zoom gate is kept, in `Sun.PromptOrDust`.
- The sun's polygon, noise, corona, gradients and colours; the stars' pixel positions, drift and the pins' zero-gravity wobble. These are canvas output computed with trigonometry. Only the horizontal offset used by the silhouette test is modelled.
- The greeting fade `(zoom - 2) / 2` and the blur and shadow values are kept; colours of dots and strokes are not. The fade is the alpha assigned; the canvas's own rule that an alpha above 1 is ignored is not modelled.
- Timers: the one-second UI reveal after the click, the shuffle's retry interval, the cascade's 100 ms interval (modelled as one loop round per tick) and the slide deck's 6-second auto-advance (modelled as `moveSlide(1)`).
- `loadModule`, the observers' DOM wiring, `viewProject`, `openCert`/`closeCert`, `revealBrick`/`revealTrap` (apart from the cascade they start), `initRailEngine`, `initRecsRail` (never called) and the projects module. These are DOM plumbing with no state the engine reads.
- `galaxyControl.setFocus`: it writes `window.currentSection`, which nothing reads.
- `maxOrbit` in the module's resize: it is computed with a square root and never read.
- `shuffleBricks` when the grid is missing: it then returns without doing anything.
- Bricks.TriggerCascade: a clicked trap brick would start a cascade of its own through the page's HTML `onclick` wiring, which is not part of this model. A click is modelled as the brick becoming revealed.
- GalaxyScene.StarsByKind: it states the per-kind result for greetings and pins only. For ambient stars the same fact (angle + frames · own speed) follows from `GalaxyScene.StarTurnsWithFrames` together with `GalaxyScene.SpinByKind`.
- GalaxyScene.Step: a new meteor is spawned with the corrected sizing, the canvas size of the last resize, not with the never-assigned `width` and `height` of script.js:45 (see the third row under "## Findings"). The meteor field is only said to come from `ShootingStar.Update` with that size; its properties are stated on `ShootingStar` itself.
- Frame pacing by `requestAnimationFrame` is not modelled. A run is a plain sequence of events.

## Findings

| source | as written | input that shows it | evidently intended | confidence | as-written member | corrected member |
|---|---|---|---|---|---|---|
| modules/01_galaxy_intro/script.js:186 | `currentSector` is read by browse-mode draws of tech stars but is never declared in the file; it is only assigned by the observer (line 371). | After the unlock click the zoom drops to browse mode. The first frame that draws tech star 15 before any section is reported throws a ReferenceError. Tech stars are drawn before `requestAnimationFrame` (line 359), so the render loop stops. | Declare `currentSector` with a start value such as "intro", as script.js:46 does. | high, not executed | IntroStars.DrawAsWritten | IntroStars.DeclaredSectorNeverThrows |
| modules/01_galaxy_intro/script.js:224 | The icon test is `img.complete && size > 10`. A failed image is also `complete`, and nothing checks `naturalWidth` or catches the error. | Any icon whose file fails to load, for example a missing greeting SVG. At the start zoom 5 greeting 0 is drawn 200 pixels wide, and `drawImage` throws an InvalidStateError for an image in the broken state. Greetings are drawn before `requestAnimationFrame` (line 359), so the render loop stops on the first frame. | Fall back to the dot, as the comment at line 227 says and as script.js:202-204 does with its `naturalWidth` test and `try`. | medium, not executed | IntroStars.BrokenImageThrows | IntroStars.BrokenImageFallsBack |
| script.js:99 | A meteor's position is `Math.random() * width` and `Math.random() * height * 0.5`. The globals `width` and `height` (line 45) are never assigned; the resize handler writes `canvas.width` and `canvas.height`. | Any spawn: with the globals undefined, the meteor is at (NaN, NaN). Its strokes are ignored by the canvas, so no shooting star is ever visible. | Scale by the canvas size set on resize. | high, not executed | ShootingStar.SpawnAsWritten | ShootingStar.Spawn |
