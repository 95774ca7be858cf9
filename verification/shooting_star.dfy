/** The shooting star of the landing-page engine (`updateShootingStar`):
    at most one meteor at a time, born with a 1% chance on a frame without
    one, moved and faded every frame it exists, and removed once its life
    has run out.

    `Math.random()` is abstracted: each frame receives a `Roll` of the draws
    it may take, each in [0, 1). */
module ShootingStar {
  import opened Options

  /** Chance per frame that a meteor is born when none exists. */
  const SpawnChance: real := 0.01
  /** Life lost per frame; a meteor is born with life 1. */
  const Fade: real := 0.02
  /** Frames a meteor is drawn, counting the frame it is born in. */
  const Lifetime: nat := 50

  datatype Meteor = Meteor(x: real, y: real, vx: real, vy: real, life: real)

  /** The random draws of one frame: the spawn test, then the four values
      that place and aim a new meteor. */
  datatype Roll = Roll(chance: real, x: real, y: real, vx: real, vy: real)

  predicate ValidRoll(r: Roll) {
    0.0 <= r.chance < 1.0 && 0.0 <= r.x < 1.0 && 0.0 <= r.y < 1.0
    && 0.0 <= r.vx < 1.0 && 0.0 <= r.vy < 1.0
  }

  /** What one frame draws, and the meteor (if any) that survives it. */
  datatype Frame = Frame(drawn: Option<Meteor>, next: Option<Meteor>)

  /** A new meteor, before this frame's move: somewhere on the top half of
      the screen, heading left and down. */
  function Spawn(roll: Roll, width: real, height: real): (m: Meteor)
    requires ValidRoll(roll) && 0.0 <= width && 0.0 <= height
    ensures 0.0 <= m.x <= width && (0.0 < width ==> m.x < width)
    ensures 0.0 <= m.y <= height / 2.0 && (0.0 < height ==> m.y < height / 2.0)
    ensures -20.0 < m.vx <= -10.0 && 2.0 <= m.vy < 7.0
    ensures m.life == 1.0
  {
    ScaledDraw(roll.x, width);
    ScaledDraw(roll.y, height);
    Meteor(roll.x * width, roll.y * height * 0.5, -10.0 - roll.vx * 10.0, 2.0 + roll.vy * 5.0, 1.0)
  }

  /** A number as JavaScript arithmetic yields it: a product with
      `undefined` is NaN. */
  datatype JsNumber = Num(value: real) | NaN

  /** `Math.random() * factor`, where the factor may be `undefined`. */
  function Times(r: real, factor: Option<real>): JsNumber {
    match factor
    case None => NaN
    case Some(f) => Num(r * f)
  }

  /** Where `script.js` places a new meteor: it scales the draws by the
      globals `width` and `height`, which are declared but never assigned
      (the resize handler writes `canvas.width` and `canvas.height`
      instead). A coordinate is a number exactly when its global holds one,
      and then it is the coordinate `Spawn` gives. */
  function SpawnAsWritten(roll: Roll, width: Option<real>, height: Option<real>): (p: (JsNumber, JsNumber))
    requires ValidRoll(roll)
    ensures p.0.Num? <==> width.Some?
    ensures p.1.Num? <==> height.Some?
    ensures width.Some? && height.Some? && 0.0 <= width.value && 0.0 <= height.value ==>
              p.0.value == Spawn(roll, width.value, height.value).x
              && p.1.value == Spawn(roll, width.value, height.value).y
  {
    (Times(roll.x, width), match Times(roll.y, height) case NaN => NaN case Num(v) => Num(v * 0.5))
  }

  /** With the globals left undefined, as on the page, every meteor is
      placed at (NaN, NaN): it moves and fades on schedule, but the canvas
      ignores its strokes and it is never seen. */
  lemma UnassignedSizeHidesMeteor(roll: Roll)
    requires ValidRoll(roll)
    ensures SpawnAsWritten(roll, None, None) == (NaN, NaN)
  {
  }

  /** A draw in [0, 1) scaled by a non-negative length stays within it. */
  lemma ScaledDraw(r: real, w: real)
    requires 0.0 <= r < 1.0 && 0.0 <= w
    ensures 0.0 <= r * w <= w
    ensures 0.0 < w ==> r * w < w
  {
    assert 0.0 <= (1.0 - r) * w;
  }

  /** One frame of flight: move by the velocity and fade. */
  function Advance(m: Meteor): (r: Meteor)
    ensures r.vx == m.vx && r.vy == m.vy
    ensures r.x - m.x == m.vx && r.y - m.y == m.vy
    ensures m.life - r.life == Fade
  {
    m.(x := m.x + m.vx, y := m.y + m.vy, life := m.life - Fade)
  }

  /** `updateShootingStar`. A meteor that exists is always moved and drawn,
      and no second one is ever born beside it; a new one is born only on
      a frame without one, and then moved and drawn in that same frame. The
      drawn meteor survives the frame exactly when its life is still
      positive. */
  function Update(current: Option<Meteor>, roll: Roll, width: real, height: real): (r: Frame)
    requires ValidRoll(roll) && 0.0 <= width && 0.0 <= height
    ensures r.drawn.None? <==> current.None? && roll.chance >= SpawnChance
    ensures current.Some? ==> r.drawn == Some(Advance(current.value))
    ensures current.None? && roll.chance < SpawnChance ==>
              r.drawn == Some(Advance(Spawn(roll, width, height)))
    ensures r.next.Some? <==> r.drawn.Some? && r.drawn.value.life > 0.0
    ensures r.next.Some? ==> r.next == r.drawn
  {
    var born := if current.None? && roll.chance < SpawnChance then Some(Spawn(roll, width, height)) else current;
    match born
    case None => Frame(None, None)
    case Some(m) =>
      var moved := Advance(m);
      Frame(Some(moved), if moved.life <= 0.0 then None else Some(moved))
  }

  /** The meteor carried across a sequence of frames. */
  function Run(current: Option<Meteor>, rolls: seq<Roll>, width: real, height: real): Option<Meteor>
    requires forall k :: 0 <= k < |rolls| ==> ValidRoll(rolls[k])
    requires 0.0 <= width && 0.0 <= height
    decreases |rolls|
  {
    if |rolls| == 0 then current
    else Run(Update(current, rolls[0], width, height).next, rolls[1..], width, height)
  }

  /** `n` frames of undisturbed flight. */
  function Glide(m: Meteor, n: nat): Meteor {
    if n == 0 then m else Advance(Glide(m, n - 1))
  }

  /** After `n` frames of flight a meteor has moved by `n` times its
      velocity and lost `n` steps of life. */
  lemma {:induction false} GlideMoves(m: Meteor, n: nat)
    ensures Glide(m, n).vx == m.vx && Glide(m, n).vy == m.vy
    ensures Glide(m, n).x == m.x + n as real * m.vx
    ensures Glide(m, n).y == m.y + n as real * m.vy
    ensures Glide(m, n).life == m.life - n as real * Fade
  {
    if n > 0 {
      GlideMoves(m, n - 1);
    }
  }

  /** A meteor with `j` steps of life left flies undisturbed, whatever the
      random draws, for fewer than `j` frames, and is gone after exactly
      `j`. */
  lemma {:induction false} FlightEnds(m: Meteor, j: nat, rolls: seq<Roll>, width: real, height: real)
    requires 0 < j && m.life == j as real * Fade
    requires |rolls| <= j
    requires forall k :: 0 <= k < |rolls| ==> ValidRoll(rolls[k])
    requires 0.0 <= width && 0.0 <= height
    ensures |rolls| < j ==> Run(Some(m), rolls, width, height) == Some(Glide(m, |rolls|))
    ensures |rolls| == j ==> Run(Some(m), rolls, width, height).None?
    decreases |rolls|
  {
    if |rolls| > 0 {
      var f := Update(Some(m), rolls[0], width, height);
      assert f.drawn == Some(Advance(m));
      var a := Advance(m);
      assert a.life == (j - 1) as real * Fade;
      if j == 1 {
        assert f.next.None? && |rolls[1..]| == 0;
        assert Run(Some(m), rolls, width, height) == Run(None, rolls[1..], width, height);
        assert Run(None, rolls[1..], width, height) == None;
      } else {
        assert f.next == Some(a);
        assert Run(Some(m), rolls, width, height) == Run(Some(a), rolls[1..], width, height);
        FlightEnds(a, j - 1, rolls[1..], width, height);
        if |rolls| < j {
          GlideShift(m, |rolls| - 1);
        }
      }
    }
  }

  /** Gliding one frame, then `n` more, is gliding `n + 1` frames. */
  lemma {:induction false} GlideShift(m: Meteor, n: nat)
    ensures Glide(Advance(m), n) == Glide(m, n + 1)
  {
    if n > 0 {
      GlideShift(m, n - 1);
    }
  }

  /** A meteor born on a frame is drawn on that frame and the next 49, and
      is gone after the 50th: `n` frames after its birth frame it has
      faded to 1 - 0.02 * (n + 1). */
  lemma MeteorLifetime(first: Roll, rolls: seq<Roll>, width: real, height: real)
    requires ValidRoll(first) && first.chance < SpawnChance
    requires forall k :: 0 <= k < |rolls| ==> ValidRoll(rolls[k])
    requires 0.0 <= width && 0.0 <= height
    requires |rolls| < Lifetime
    ensures var s := Run(None, [first] + rolls, width, height);
            |rolls| < Lifetime - 1 ==> s.Some? && s.value.life == 1.0 - (|rolls| + 1) as real * Fade
    ensures |rolls| == Lifetime - 1 ==> Run(None, [first] + rolls, width, height).None?
  {
    var m := Advance(Spawn(first, width, height));
    assert Update(None, first, width, height).next == Some(m);
    assert ([first] + rolls)[1..] == rolls;
    assert Run(None, [first] + rolls, width, height) == Run(Some(m), rolls, width, height);
    FlightEnds(m, Lifetime - 1, rolls, width, height);
    GlideMoves(m, |rolls|);
  }
}
