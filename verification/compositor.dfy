/** The compositor: the fixed back-to-front order in which one frame draws
    the stars and the sun. There is no depth buffer; this order alone makes
    the sun hide the far half of the greeting ring. */
module Compositor {
  import GalaxyStars
  import IntroStars

  /** One draw call of the frame: the star at an index of the star list, or
      the sun. */
  datatype Slot = StarSlot(i: nat) | SunSlot

  /** The stars from index `from` on that belong to `layer`, in list order
      (one `stars.filter(...)` pass). */
  function Collect<L(==)>(layers: seq<L>, layer: L, from: nat): (r: seq<Slot>)
    requires from <= |layers|
    ensures forall p :: 0 <= p < |r| ==>
              r[p].StarSlot? && from <= r[p].i < |layers| && layers[r[p].i] == layer
    decreases |layers| - from
  {
    if from == |layers| then []
    else if layers[from] == layer then [StarSlot(from)] + Collect(layers, layer, from + 1)
    else Collect(layers, layer, from + 1)
  }

  /** Each star of the layer is collected exactly once, and no other star
      is. */
  lemma {:induction false} CollectCounts<L>(layers: seq<L>, layer: L, from: nat, j: nat)
    requires from <= |layers|
    ensures multiset(Collect(layers, layer, from))[StarSlot(j)] ==
              (if from <= j < |layers| && layers[j] == layer then 1 else 0)
    decreases |layers| - from
  {
    if from < |layers| {
      CollectCounts(layers, layer, from + 1, j);
      if layers[from] == layer {
        ConsCount(from, Collect(layers, layer, from + 1), j);
      }
    }
  }

  /** Putting star `i` in front adds one to its count and to no other. */
  lemma ConsCount(i: nat, rest: seq<Slot>, j: nat)
    ensures multiset([StarSlot(i)] + rest)[StarSlot(j)] ==
              multiset(rest)[StarSlot(j)] + (if i == j then 1 else 0)
  {
    assert multiset([StarSlot(i)] + rest) == multiset{StarSlot(i)} + multiset(rest);
  }

  /** The sun is never collected as a star. */
  lemma CollectNoSun<L>(layers: seq<L>, layer: L, from: nat)
    requires from <= |layers|
    ensures multiset(Collect(layers, layer, from))[SunSlot] == 0
  {
    assert SunSlot !in Collect(layers, layer, from);
  }

  /** Each layer is drawn in list order. */
  lemma {:induction false} CollectInOrder<L>(layers: seq<L>, layer: L, from: nat)
    requires from <= |layers|
    ensures forall p, q :: 0 <= p < q < |Collect(layers, layer, from)| ==>
              Collect(layers, layer, from)[p].i < Collect(layers, layer, from)[q].i
    decreases |layers| - from
  {
    if from < |layers| {
      CollectInOrder(layers, layer, from + 1);
      var rest := Collect(layers, layer, from + 1);
      if layers[from] == layer {
        var r := [StarSlot(from)] + rest;
        assert r == Collect(layers, layer, from);
        forall p, q | 0 <= p < q < |r|
          ensures r[p].i < r[q].i
        {
          assert r[q] == rest[q - 1];
          if p > 0 {
            assert r[p] == rest[p - 1];
          }
        }
      }
    }
  }

  // ----- The landing-page engine (script.js) -----

  /** The four star layers of the landing-page frame. */
  datatype Layer = AmbientLayer | PinLayer | BehindSunLayer | FrontLayer

  function LayerOf(s: GalaxyStars.Star, sinAngle: real): (l: Layer)
    ensures l == BehindSunLayer <==> GalaxyStars.BehindSun(s, sinAngle)
    ensures l == FrontLayer <==> s.kind == GalaxyStars.Greeting && !GalaxyStars.BehindSun(s, sinAngle)
  {
    match s.kind
    case Ambient => AmbientLayer
    case Pin(_) => PinLayer
    case Greeting => if GalaxyStars.BehindSun(s, sinAngle) then BehindSunLayer else FrontLayer
  }

  function Layers(stars: seq<GalaxyStars.Star>, sines: seq<real>): (ls: seq<Layer>)
    requires |sines| == |stars|
    ensures |ls| == |stars|
    ensures forall k :: 0 <= k < |ls| ==> ls[k] == LayerOf(stars[k], sines[k])
  {
    seq(|stars|, k requires 0 <= k < |stars| => LayerOf(stars[k], sines[k]))
  }

  /** Draw position of a layer: ambient stars, pins, far greetings, the
      sun, near greetings. */
  function LayerRank(l: Layer): int {
    match l
    case AmbientLayer => 0
    case PinLayer => 1
    case BehindSunLayer => 2
    case FrontLayer => 4
  }

  /** Draw position of one slot: the sun sits between the far and the near
      greetings. */
  function SlotRank(ls: seq<Layer>, slot: Slot): int {
    if slot.SunSlot? then 3 else if slot.i < |ls| then LayerRank(ls[slot.i]) else 5
  }

  /** The frame never draws a slot of lower rank after one of higher rank. */
  ghost predicate Ranked(s: seq<Slot>, ls: seq<Layer>) {
    forall p, q :: 0 <= p < q < |s| ==> SlotRank(ls, s[p]) <= SlotRank(ls, s[q])
  }

  ghost predicate AllRanked(s: seq<Slot>, ls: seq<Layer>, k: int) {
    forall p :: 0 <= p < |s| ==> SlotRank(ls, s[p]) == k
  }

  /** The stars of one layer all carry that layer's rank. */
  lemma CollectRanked(ls: seq<Layer>, l: Layer)
    ensures AllRanked(Collect(ls, l, 0), ls, LayerRank(l))
  {
  }

  lemma AppendRanked(a: seq<Slot>, b: seq<Slot>, ls: seq<Layer>, ka: int, kb: int)
    requires Ranked(a, ls) && AllRanked(b, ls, kb) && ka <= kb
    requires forall p :: 0 <= p < |a| ==> SlotRank(ls, a[p]) <= ka
    ensures Ranked(a + b, ls)
    ensures forall p :: 0 <= p < |a + b| ==> SlotRank(ls, (a + b)[p]) <= kb
  {
    forall p, q | 0 <= p < q < |a + b|
      ensures SlotRank(ls, (a + b)[p]) <= SlotRank(ls, (a + b)[q])
    {
      if q < |a| {
        assert (a + b)[p] == a[p] && (a + b)[q] == a[q];
      } else if p < |a| {
        assert (a + b)[q] == b[q - |a|];
      } else {
        assert (a + b)[p] == b[p - |a|] && (a + b)[q] == b[q - |a|];
      }
    }
  }

  /** The draw order of a frame whose stars fall into layers `ls`. */
  function LayeredOrder(ls: seq<Layer>): seq<Slot> {
    Collect(ls, AmbientLayer, 0) + Collect(ls, PinLayer, 0) + Collect(ls, BehindSunLayer, 0)
    + [SunSlot] + Collect(ls, FrontLayer, 0)
  }

  /** The draw order of one frame of `animate` (`sines[k]` is the sine of
      star k's angle after this frame's update). */
  function FrameOrder(stars: seq<GalaxyStars.Star>, sines: seq<real>): seq<Slot>
    requires |sines| == |stars|
  {
    LayeredOrder(Layers(stars, sines))
  }

  /** Every star is drawn exactly once per frame, and the sun once. */
  lemma FrameDrawsEachOnce(stars: seq<GalaxyStars.Star>, sines: seq<real>)
    requires |sines| == |stars|
    ensures var r := FrameOrder(stars, sines);
            && (forall p :: 0 <= p < |r| && r[p].StarSlot? ==> r[p].i < |stars|)
            && (forall j: nat :: j < |stars| ==> multiset(r)[StarSlot(j)] == 1)
            && multiset(r)[SunSlot] == 1
  {
    var ls := Layers(stars, sines);
    forall j: nat | j < |stars|
      ensures multiset(LayeredOrder(ls))[StarSlot(j)] == 1
    {
      LayeredCount(ls, j);
    }
    LayeredCount(ls, |ls|);
    LayeredInRange(ls);
  }

  /** Star `j` appears once in the layered order when it is in the list,
      never otherwise; the sun appears once. */
  lemma LayeredCount(ls: seq<Layer>, j: nat)
    ensures multiset(LayeredOrder(ls))[StarSlot(j)] == (if j < |ls| then 1 else 0)
    ensures multiset(LayeredOrder(ls))[SunSlot] == 1
  {
    var a := Collect(ls, AmbientLayer, 0);
    var b := Collect(ls, PinLayer, 0);
    var c := Collect(ls, BehindSunLayer, 0);
    var f := Collect(ls, FrontLayer, 0);
    var m := multiset(LayeredOrder(ls));
    assert m == multiset(a) + multiset(b) + multiset(c) + multiset{SunSlot} + multiset(f);
    CollectCounts(ls, AmbientLayer, 0, j);
    CollectCounts(ls, PinLayer, 0, j);
    CollectCounts(ls, BehindSunLayer, 0, j);
    CollectCounts(ls, FrontLayer, 0, j);
    CollectNoSun(ls, AmbientLayer, 0);
    CollectNoSun(ls, PinLayer, 0);
    CollectNoSun(ls, BehindSunLayer, 0);
    CollectNoSun(ls, FrontLayer, 0);
    var x := StarSlot(j);
    assert m[x] == multiset(a)[x] + multiset(b)[x] + multiset(c)[x] + multiset(f)[x];
    if j < |ls| {
      match ls[j]
      case AmbientLayer => assert multiset(a)[x] == 1 && multiset(b)[x] == multiset(c)[x] == multiset(f)[x] == 0;
      case PinLayer => assert multiset(b)[x] == 1 && multiset(a)[x] == multiset(c)[x] == multiset(f)[x] == 0;
      case BehindSunLayer => assert multiset(c)[x] == 1 && multiset(a)[x] == multiset(b)[x] == multiset(f)[x] == 0;
      case FrontLayer => assert multiset(f)[x] == 1 && multiset(a)[x] == multiset(b)[x] == multiset(c)[x] == 0;
    }
    assert m[SunSlot] == 1;
  }

  /** The layered order only draws stars of the list. */
  lemma LayeredInRange(ls: seq<Layer>)
    ensures forall p :: 0 <= p < |LayeredOrder(ls)| && LayeredOrder(ls)[p].StarSlot? ==>
              LayeredOrder(ls)[p].i < |ls|
  {
    var a := Collect(ls, AmbientLayer, 0);
    var b := Collect(ls, PinLayer, 0);
    var c := Collect(ls, BehindSunLayer, 0);
    var f := Collect(ls, FrontLayer, 0);
    var r := a + b + c + [SunSlot] + f;
    assert r == LayeredOrder(ls);
    forall p | 0 <= p < |r| && r[p].StarSlot?
      ensures r[p].i < |ls|
    {
      var k := p - |a| - |b| - |c| - 1;
      if p < |a| {
        assert r[p] == a[p];
      } else if p < |a| + |b| {
        assert r[p] == b[p - |a|];
      } else if p < |a| + |b| + |c| {
        assert r[p] == c[p - |a| - |b|];
      } else if k >= 0 {
        assert r[p] == f[k];
      }
    }
  }

  /** The frame never draws a lower layer after a higher one: ambient
      stars, then pins, then the greetings on the far half of their orbit,
      then the sun, then the remaining greetings, each group in list order. */
  lemma FrameIsRanked(stars: seq<GalaxyStars.Star>, sines: seq<real>)
    requires |sines| == |stars|
    ensures Ranked(FrameOrder(stars, sines), Layers(stars, sines))
  {
    var ls := Layers(stars, sines);
    var a := Collect(ls, AmbientLayer, 0);
    var b := Collect(ls, PinLayer, 0);
    var c := Collect(ls, BehindSunLayer, 0);
    var f := Collect(ls, FrontLayer, 0);
    CollectRanked(ls, AmbientLayer);
    CollectRanked(ls, PinLayer);
    CollectRanked(ls, BehindSunLayer);
    CollectRanked(ls, FrontLayer);
    assert Ranked(a, ls);
    AppendRanked(a, b, ls, 0, 1);
    AppendRanked(a + b, c, ls, 1, 2);
    assert AllRanked([SunSlot], ls, 3);
    AppendRanked(a + b + c, [SunSlot], ls, 2, 3);
    AppendRanked(a + b + c + [SunSlot], f, ls, 3, 4);
  }

  /** One star and the sun of a frame: the star comes after the sun
      exactly when it is a greeting whose angle has a non-negative sine. */
  lemma StarAgainstSun(stars: seq<GalaxyStars.Star>, sines: seq<real>, p: nat, q: nat)
    requires |sines| == |stars|
    requires p < |FrameOrder(stars, sines)| && q < |FrameOrder(stars, sines)|
    requires FrameOrder(stars, sines)[q] == SunSlot && FrameOrder(stars, sines)[p].StarSlot?
    ensures FrameOrder(stars, sines)[p].i < |stars|
    ensures var i := FrameOrder(stars, sines)[p].i;
            p > q <==> stars[i].kind == GalaxyStars.Greeting && sines[i] >= 0.0
  {
    var ls := Layers(stars, sines);
    var r := FrameOrder(stars, sines);
    FrameIsRanked(stars, sines);
    FrameDrawsEachOnce(stars, sines);
    var i := r[p].i;
    assert SlotRank(ls, r[p]) == LayerRank(LayerOf(stars[i], sines[i]));
    if p < q {
      assert SlotRank(ls, r[p]) <= SlotRank(ls, r[q]);
    } else {
      assert SlotRank(ls, r[q]) <= SlotRank(ls, r[p]);
    }
  }

  /** A greeting is drawn after the sun exactly when the sine of its angle
      is not negative, and no other kind of star is ever drawn after the
      sun. */
  lemma FrameSplitsGreetingsAtSun(stars: seq<GalaxyStars.Star>, sines: seq<real>)
    requires |sines| == |stars|
    ensures var r := FrameOrder(stars, sines);
            forall p, q :: 0 <= p < |r| && 0 <= q < |r| && r[q] == SunSlot && r[p].StarSlot? ==>
              r[p].i < |stars|
              && (p > q <==> stars[r[p].i].kind == GalaxyStars.Greeting && sines[r[p].i] >= 0.0)
  {
    var r := FrameOrder(stars, sines);
    forall p, q | 0 <= p < |r| && 0 <= q < |r| && r[q] == SunSlot && r[p].StarSlot?
      ensures r[p].i < |stars|
      ensures p > q <==> stars[r[p].i].kind == GalaxyStars.Greeting && sines[r[p].i] >= 0.0
    {
      StarAgainstSun(stars, sines, p, q);
    }
  }

  // ----- The intro module's engine (modules/01_galaxy_intro/script.js) -----

  /** 0 for the tech stars drawn before the sun, 1 for the greetings after it. */
  function IntroLayers(stars: seq<IntroStars.Star>): (ls: seq<int>)
    ensures |ls| == |stars|
    ensures forall k :: 0 <= k < |ls| ==> (ls[k] == 1 <==> stars[k].Greeter?) && (ls[k] == 0 <==> stars[k].Tech?)
  {
    seq(|stars|, k requires 0 <= k < |stars| => if stars[k].Greeter? then 1 else 0)
  }

  /** The draw order of one frame of the intro module's `animate`: every
      non-greeting, the sun, every greeting. */
  function IntroFrameOrder(stars: seq<IntroStars.Star>): seq<Slot> {
    var ls := IntroLayers(stars);
    Collect(ls, 0, 0) + [SunSlot] + Collect(ls, 1, 0)
  }

  /** Where the sun sits in a frame built as `back + [sun] + front` from
      star slots only. */
  lemma SunBetween(back: seq<Slot>, front: seq<Slot>)
    requires forall p :: 0 <= p < |back| ==> back[p].StarSlot?
    requires forall p :: 0 <= p < |front| ==> front[p].StarSlot?
    ensures var r := back + [SunSlot] + front;
            forall q :: 0 <= q < |r| && r[q] == SunSlot ==> q == |back|
    ensures var r := back + [SunSlot] + front;
            forall p :: 0 <= p < |back| ==> r[p] == back[p]
    ensures var r := back + [SunSlot] + front;
            forall p :: |back| < p < |r| ==> r[p] == front[p - |back| - 1]
  {
  }

  /** In the intro module's frame each star is drawn exactly once and the
      sun once; every star before the sun is a tech star and every star
      after it a greeting. */
  lemma IntroFrameSplitsAtSun(stars: seq<IntroStars.Star>)
    ensures var r := IntroFrameOrder(stars);
            && (forall j: nat :: j < |stars| ==> multiset(r)[StarSlot(j)] == 1)
            && multiset(r)[SunSlot] == 1
    ensures var r := IntroFrameOrder(stars);
            forall p, q :: 0 <= p < |r| && 0 <= q < |r| && r[q] == SunSlot && r[p].StarSlot? ==>
              r[p].i < |stars| && (p < q <==> stars[r[p].i].Tech?) && (p > q <==> stars[r[p].i].Greeter?)
  {
    forall j: nat | j < |stars|
      ensures multiset(IntroFrameOrder(stars))[StarSlot(j)] == 1
    {
      IntroCount(stars, j);
    }
    IntroCount(stars, 0);
    IntroSplit(stars);
  }

  lemma IntroCount(stars: seq<IntroStars.Star>, j: nat)
    ensures multiset(IntroFrameOrder(stars))[StarSlot(j)] == (if j < |stars| then 1 else 0)
    ensures multiset(IntroFrameOrder(stars))[SunSlot] == 1
  {
    var ls := IntroLayers(stars);
    var back := Collect(ls, 0, 0);
    var front := Collect(ls, 1, 0);
    assert multiset(IntroFrameOrder(stars)) == multiset(back) + multiset{SunSlot} + multiset(front);
    CollectCounts(ls, 0, 0, j);
    CollectCounts(ls, 1, 0, j);
    CollectNoSun(ls, 0, 0);
    CollectNoSun(ls, 1, 0);
  }

  lemma IntroSplit(stars: seq<IntroStars.Star>)
    ensures var r := IntroFrameOrder(stars);
            forall p, q :: 0 <= p < |r| && 0 <= q < |r| && r[q] == SunSlot && r[p].StarSlot? ==>
              r[p].i < |stars| && (p < q <==> stars[r[p].i].Tech?) && (p > q <==> stars[r[p].i].Greeter?)
  {
    var ls := IntroLayers(stars);
    var back := Collect(ls, 0, 0);
    var front := Collect(ls, 1, 0);
    var r := back + [SunSlot] + front;
    assert r == IntroFrameOrder(stars);
    SunBetween(back, front);
    forall p, q | 0 <= p < |r| && 0 <= q < |r| && r[q] == SunSlot && r[p].StarSlot?
      ensures r[p].i < |stars| && (p < q <==> stars[r[p].i].Tech?) && (p > q <==> stars[r[p].i].Greeter?)
    {
      assert q == |back|;
      if p < |back| {
        assert r[p] == back[p] && ls[back[p].i] == 0;
      } else {
        assert r[p] == front[p - |back| - 1] && ls[r[p].i] == 1;
      }
    }
  }
}
