/** The camera of the galaxy engine: a single zoom scalar eased toward a
    target every frame, and the one-shot unlock (a click, or the
    `galaxyControl.unlock` bridge) that pulls the camera back from the sun.
    Both versions of the engine use exactly this rule. */
module Camera {

  /** A gap at or below this is "arrived": the ease leaves the zoom alone. */
  const SnapTolerance: real := 0.01
  /** Fraction of the remaining gap covered by one frame of the ease. */
  const EaseFactor: real := 0.02
  /** Zoom and target the page starts with: close up on the sun. */
  const StartZoom: real := 5.0
  /** Target set by the unlock: the pulled-back sector view. */
  const UnlockedZoom: real := 1.0
  /** Above this zoom the scene is in intro mode, at or below it in browse mode. */
  const BrowseThreshold: real := 2.0
  /** Dust is drawn at or below this zoom; the sun's prompt only above it. */
  const DustThreshold: real := 3.0

  /** `cameraZoom`, `targetZoom` and `isExploding`. */
  datatype CameraState = CameraState(zoom: real, target: real, exploding: bool)

  const Start: CameraState := CameraState(StartZoom, StartZoom, false)

  function Abs(x: real): real {
    if x < 0.0 then -x else x
  }

  /** Distance still to travel. */
  function Gap(c: CameraState): real {
    Abs(c.target - c.zoom)
  }

  predicate Settled(c: CameraState) {
    Gap(c) <= SnapTolerance
  }

  /** Intro mode: greetings orbit the sun, sector pins are hidden. */
  predicate IntroMode(zoom: real) {
    zoom > BrowseThreshold
  }

  /** The dust swarm is drawn only when the camera is this far out. */
  predicate DustVisible(zoom: real) {
    zoom <= DustThreshold
  }

  /** One frame of the exponential ease: outside the tolerance the zoom moves
      strictly toward the target, never past it, and the gap shrinks by the
      fixed factor; inside the tolerance nothing moves. */
  function Ease(c: CameraState): (r: CameraState)
    ensures r.target == c.target && r.exploding == c.exploding
    ensures Settled(c) ==> r == c
    ensures !Settled(c) ==>
              (c.zoom < r.zoom < c.target) || (c.target < r.zoom < c.zoom)
    ensures !Settled(c) ==> Gap(r) == (1.0 - EaseFactor) * Gap(c)
  {
    if Abs(c.target - c.zoom) > SnapTolerance then
      c.(zoom := c.zoom + (c.target - c.zoom) * EaseFactor)
    else
      c
  }

  /** The document click handler: acts only while not exploding, and then
      starts the transition toward the pulled-back view. */
  function Click(c: CameraState): (r: CameraState)
    ensures r.exploding && r.zoom == c.zoom
    ensures !c.exploding ==> r.target == UnlockedZoom
    ensures c.exploding ==> r == c
  {
    if !c.exploding then c.(exploding := true, target := UnlockedZoom) else c
  }

  /** The `galaxyControl.unlock` bridge: the same writes as the click, but
      without the guard. */
  function Unlock(c: CameraState): (r: CameraState)
    ensures r.exploding && r.target == UnlockedZoom && r.zoom == c.zoom
  {
    c.(target := UnlockedZoom, exploding := true)
  }

  /** What can happen to the camera between two observations: a frame of
      the render loop, a click, or a call of the unlock bridge. */
  datatype Signal = Tick | Clicked | Unlocked

  function Step(c: CameraState, s: Signal): CameraState {
    match s
    case Tick => Ease(c)
    case Clicked => Click(c)
    case Unlocked => Unlock(c)
  }

  function Run(c: CameraState, signals: seq<Signal>): CameraState
    decreases |signals|
  {
    if |signals| == 0 then c else Run(Step(c, signals[0]), signals[1..])
  }

  /** The states the page can be in: untouched at the start zoom, or
      exploding toward zoom 1 from somewhere in (1, 5]. */
  predicate Reachable(c: CameraState) {
    || (!c.exploding && c.zoom == StartZoom && c.target == StartZoom)
    || (c.exploding && c.target == UnlockedZoom && UnlockedZoom < c.zoom <= StartZoom)
  }

  lemma StartIsReachable()
    ensures Reachable(Start) && !Start.exploding
  {
  }

  lemma StepStaysReachable(c: CameraState, s: Signal)
    requires Reachable(c)
    ensures Reachable(Step(c, s))
  {
  }

  /** Every sequence of frames, clicks and unlock calls keeps the camera
      reachable: the zoom stays in (1, 5] and the target is 5 before the
      unlock and 1 after it. */
  lemma {:induction false} RunStaysReachable(c: CameraState, signals: seq<Signal>)
    requires Reachable(c)
    ensures Reachable(Run(c, signals))
    decreases |signals|
  {
    if |signals| > 0 {
      StepStaysReachable(c, signals[0]);
      RunStaysReachable(Step(c, signals[0]), signals[1..]);
    }
  }

  /** A second click changes nothing, and neither does a second call of the
      unlock bridge. */
  lemma UnlockIsOneShot(c: CameraState)
    ensures Click(Click(c)) == Click(c)
    ensures Unlock(Unlock(c)) == Unlock(c)
    ensures !c.exploding ==> Click(c) == Unlock(c)
  {
  }

  /** Once exploding, always exploding: no signal resets the flag. */
  lemma {:induction false} ExplodingIsTerminal(c: CameraState, signals: seq<Signal>)
    requires c.exploding
    ensures Run(c, signals).exploding
    ensures Run(c, signals).target == c.target || Run(c, signals).target == UnlockedZoom
    decreases |signals|
  {
    if |signals| > 0 {
      ExplodingIsTerminal(Step(c, signals[0]), signals[1..]);
    }
  }

  /** After the unlock the zoom never rises again. */
  lemma {:induction false} ZoomNeverRisesAfterUnlock(c: CameraState, signals: seq<Signal>)
    requires Reachable(c) && c.exploding
    ensures Run(c, signals).zoom <= c.zoom
    decreases |signals|
  {
    if |signals| > 0 {
      var c' := Step(c, signals[0]);
      assert c'.zoom <= c.zoom && Reachable(c') && c'.exploding;
      ZoomNeverRisesAfterUnlock(c', signals[1..]);
    }
  }

  /** How many signals of a run actually write a new target. */
  function TargetWrites(c: CameraState, signals: seq<Signal>): nat
    decreases |signals|
  {
    if |signals| == 0 then 0
    else
      var c' := Step(c, signals[0]);
      (if c'.target != c.target then 1 else 0) + TargetWrites(c', signals[1..])
  }

  predicate HasTrigger(signals: seq<Signal>) {
    exists k :: 0 <= k < |signals| && signals[k] != Tick
  }

  /** From any reachable state, the target is written at most once in a
      whole session: exactly once when the camera was still at rest and
      some click or unlock arrives, never otherwise. */
  lemma {:induction false} TargetWrittenOnce(c: CameraState, signals: seq<Signal>)
    requires Reachable(c)
    ensures TargetWrites(c, signals) == (if !c.exploding && HasTrigger(signals) then 1 else 0)
    decreases |signals|
  {
    if |signals| > 0 {
      var c' := Step(c, signals[0]);
      StepStaysReachable(c, signals[0]);
      TargetWrittenOnce(c', signals[1..]);
      if signals[0] != Tick {
        assert HasTrigger(signals);
      } else if HasTrigger(signals) {
        var k :| 0 <= k < |signals| && signals[k] != Tick;
        assert signals[1..][k - 1] != Tick;
      } else {
        assert !HasTrigger(signals[1..]) by {
          forall k | 0 <= k < |signals[1..]|
            ensures signals[1..][k] == Tick
          {
            assert signals[1..][k] == signals[k + 1];
          }
        }
      }
    }
  }

  /** `n` frames of the ease with no other signal. */
  function EaseFrames(c: CameraState, n: nat): CameraState
    decreases n
  {
    if n == 0 then c else Ease(EaseFrames(c, n - 1))
  }

  function Pow(x: real, n: nat): real
    decreases n
  {
    if n == 0 then 1.0 else x * Pow(x, n - 1)
  }

  /** The ease never leaves the interval between the start zoom and the
      target: no overshoot, however many frames. */
  lemma {:induction false} EaseStaysBetween(c: CameraState, n: nat)
    ensures EaseFrames(c, n).target == c.target && EaseFrames(c, n).exploding == c.exploding
    ensures c.zoom <= c.target ==> c.zoom <= EaseFrames(c, n).zoom <= c.target
    ensures c.target <= c.zoom ==> c.target <= EaseFrames(c, n).zoom <= c.zoom
    decreases n
  {
    if n > 0 {
      EaseStaysBetween(c, n - 1);
    }
  }

  /** A gap after `n` frames of shrinking by the ease factor. */
  function Shrunk(g: real, n: nat): real
    decreases n
  {
    if n == 0 then g else (1.0 - EaseFactor) * Shrunk(g, n - 1)
  }

  /** Until it snaps, the gap after `n` frames is the starting gap shrunk
      `n` times by the ease factor. */
  lemma {:induction false} EaseGapShrinks(c: CameraState, n: nat)
    ensures Settled(EaseFrames(c, n)) || Gap(EaseFrames(c, n)) == Shrunk(Gap(c), n)
    decreases n
  {
    if n > 0 {
      EaseGapShrinks(c, n - 1);
      var p := EaseFrames(c, n - 1);
      if Settled(p) {
        assert EaseFrames(c, n) == p;
      } else {
        assert Gap(p) == Shrunk(Gap(c), n - 1);
      }
    }
  }

  /** Shrinking `n` times is scaling by 0.98^n. */
  lemma {:induction false} ShrunkIsPow(g: real, n: nat)
    ensures Shrunk(g, n) == Pow(1.0 - EaseFactor, n) * g
    decreases n
  {
    if n > 0 {
      ShrunkIsPow(g, n - 1);
      MulAssoc(1.0 - EaseFactor, Pow(1.0 - EaseFactor, n - 1), g);
    }
  }

  lemma MulAssoc(x: real, y: real, z: real)
    ensures x * (y * z) == (x * y) * z
  {
  }

  lemma {:induction false} PowNonNegative(x: real, n: nat)
    requires 0.0 <= x
    ensures 0.0 <= Pow(x, n)
    decreases n
  {
    if n > 0 {
      PowNonNegative(x, n - 1);
    }
  }

  /** Bernoulli's bound for the ease factor: 0.98^n * (1 + 0.02 n) <= 1. */
  lemma {:induction false} PowBernoulli(n: nat)
    ensures Pow(1.0 - EaseFactor, n) * (1.0 + EaseFactor * n as real) <= 1.0
    decreases n
  {
    if n > 0 {
      PowBernoulli(n - 1);
      PowNonNegative(1.0 - EaseFactor, n - 1);
      var p := Pow(0.98, n - 1);
      var a := 1.0 + 0.02 * (n - 1) as real;
      assert p * a <= 1.0;
      assert p <= 1.0 by {
        ProductNonNegative(p, a - 1.0);
      }
      calc {
        Pow(0.98, n) * (1.0 + 0.02 * n as real);
        0.98 * p * (a + 0.02);
        0.98 * (p * a) + 0.0196 * p;
      <= 0.98 + 0.0196 * p;
      <= 1.0;
      }
    }
  }

  lemma ProductNonNegative(x: real, y: real)
    requires 0.0 <= x && 0.0 <= y
    ensures 0.0 <= x * y
  {
  }

  lemma PositiveFactorKeepsSign(x: real, y: real)
    requires y > 0.0 && x * y < 0.0
    ensures x < 0.0
  {
  }

  /** The arithmetic behind `EaseSettles`: a gap `g` scaled by a factor
      below 1 / (1 + 0.02 n), with n >= 5000 g, is within the tolerance. */
  lemma SmallEnoughGap(p: real, g: real, n: real)
    requires 0.0 <= p && 0.0 <= g && n >= 5000.0 * g
    requires p * (1.0 + 0.02 * n) <= 1.0
    ensures p * g <= 0.01
  {
    var a := 1.0 + 0.02 * n;
    var q := p * g;
    ProductNonNegative(p, g);
    assert q * a <= g by {
      assert q * a == (p * a) * g;
      ProductNonNegative(1.0 - p * a, g);
    }
    assert q * (1.0 + 100.0 * g) <= g by {
      ProductNonNegative(q, a - (1.0 + 100.0 * g));
    }
    assert (q - 0.01) * (1.0 + 100.0 * g) < 0.0;
    PositiveFactorKeepsSign(q - 0.01, 1.0 + 100.0 * g);
  }

  /** A gap `g` shrunk for at least 5000 g frames is within the tolerance. */
  lemma ShrunkBelowTolerance(g: real, n: nat)
    requires 0.0 <= g && n as real >= 5000.0 * g
    ensures Shrunk(g, n) <= SnapTolerance
  {
    ShrunkIsPow(g, n);
    PowBernoulli(n);
    PowNonNegative(1.0 - EaseFactor, n);
    SmallEnoughGap(Pow(1.0 - EaseFactor, n), g, n as real);
  }

  /** The ease always settles: within 5000 frames per unit of starting gap
      the zoom is inside the snap tolerance (and then stays put). */
  lemma EaseSettles(c: CameraState, n: nat)
    requires n as real >= 5000.0 * Gap(c)
    ensures Settled(EaseFrames(c, n))
  {
    EaseGapShrinks(c, n);
    ShrunkBelowTolerance(Gap(c), n);
  }
}
