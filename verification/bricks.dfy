/** The "cyber wall" brick game of the landing page (`script.js`): the
    bricks are shuffled once when the wall appears, and revealing a trap
    brick sets off a cascade that reveals a few random bricks near it.

    A brick is reduced to whether it has been revealed (as a safe brick or
    as a trap); `Math.random()` is abstracted as a function from the draw's
    position to a number in [0, 1). */
module Bricks {
  /** The cascade gives up after this many misses past the first. */
  const MaxAttempts: nat := 20
  /** Farthest offset the cascade picks below the origin brick. */
  const Reach: int := 5

  ghost predicate ValidDraws(rolls: nat -> real) {
    forall k: nat :: 0.0 <= rolls(k) < 1.0
  }

  /** `r * n`, as `n` additions of `r`. */
  function Scale(r: real, n: nat): real {
    if n == 0 then 0.0 else Scale(r, n - 1) + r
  }

  lemma {:induction false} ScaleIsProduct(r: real, n: nat)
    ensures Scale(r, n) == r * n as real
  {
    if n > 0 {
      ScaleIsProduct(r, n - 1);
    }
  }

  /** A draw in [0, 1) scaled by `n` lies in [0, n). */
  lemma {:induction false} ScaledDraw(r: real, n: nat)
    requires 0.0 <= r < 1.0
    ensures 0.0 <= Scale(r, n) <= n as real
    ensures n > 0 ==> Scale(r, n) < n as real
  {
    if n > 0 {
      ScaledDraw(r, n - 1);
    }
  }

  /** `Math.floor(x)` for an `x` in [0, n). */
  function Floor(x: real, n: nat): (j: nat)
    requires 0.0 <= x < n as real
    ensures j < n && j as real <= x < j as real + 1.0
    decreases n
  {
    if x < 1.0 then 0 else 1 + Floor(x - 1.0, n - 1)
  }

  /** `Math.floor(Math.random() * n)`: a uniform pick from 0 to n - 1. */
  function Pick(r: real, n: nat): (j: nat)
    requires 0.0 <= r < 1.0 && n > 0
    ensures j < n
  {
    ScaledDraw(r, n);
    Floor(Scale(r, n), n)
  }

  /** The pick is the floor of the draw times `n`. */
  lemma PickIsFloor(r: real, n: nat)
    requires 0.0 <= r < 1.0 && n > 0
    ensures Pick(r, n) as real <= r * n as real < Pick(r, n) as real + 1.0
  {
    ScaleIsProduct(r, n);
  }

  /** The sequence with the elements at `i` and `j` exchanged. */
  function Swap<T>(s: seq<T>, i: nat, j: nat): (r: seq<T>)
    requires i < |s| && j < |s|
    ensures |r| == |s| && r[i] == s[j] && r[j] == s[i]
  {
    s[i := s[j]][j := s[i]]
  }

  /** An exchange keeps every brick, as often as before. */
  lemma SwapPermutes<T>(s: seq<T>, i: nat, j: nat)
    requires i < |s| && j < |s|
    ensures multiset(Swap(s, i, j)) == multiset(s)
  {
  }

  /** The draw at loop index `i` as the index it picks, 0 to i. */
  function Picks(rolls: nat -> real): (pick: nat -> nat)
    requires ValidDraws(rolls)
    ensures ValidPicks(pick)
  {
    (i: nat) => Pick(rolls(i), i + 1)
  }

  ghost predicate ValidPicks(pick: nat -> nat) {
    forall i: nat :: pick(i) <= i
  }

  /** Reference definition of the Fisher-Yates pass from index `i` down to
      1: swap position `i` with the position picked for it, at most `i`,
      then carry on below. */
  function FisherYates<T>(s: seq<T>, i: nat, pick: nat -> nat): (r: seq<T>)
    requires i < |s| && ValidPicks(pick)
    ensures |r| == |s|
    decreases i
  {
    if i == 0 then s else FisherYates(Swap(s, i, pick(i)), i - 1, pick)
  }

  /** One round of the pass. */
  lemma FisherYatesStep<T>(s: seq<T>, i: nat, pick: nat -> nat)
    requires 0 < i < |s| && ValidPicks(pick)
    ensures FisherYates(s, i, pick) == FisherYates(Swap(s, i, pick(i)), i - 1, pick)
  {
  }

  /** The pass only rearranges the bricks: the same bricks, each as often
      as before. */
  lemma {:induction false} FisherYatesPermutes<T>(s: seq<T>, i: nat, pick: nat -> nat)
    requires i < |s| && ValidPicks(pick)
    ensures multiset(FisherYates(s, i, pick)) == multiset(s)
    decreases i
  {
    if i == 0 {
      assert FisherYates(s, i, pick) == s;
    } else {
      var t := Swap(s, i, pick(i));
      FisherYatesPermutes(t, i - 1, pick);
      SwapPermutes(s, i, pick(i));
      assert FisherYates(s, i, pick) == FisherYates(t, i - 1, pick);
    }
  }

  /** The pass from `i` down leaves every position above `i` alone. */
  lemma {:induction false} FisherYatesKeepsTop<T>(s: seq<T>, i: nat, pick: nat -> nat)
    requires i < |s| && ValidPicks(pick)
    ensures forall k :: i < k < |s| ==> FisherYates(s, i, pick)[k] == s[k]
    decreases i
  {
    if i > 0 {
      var t := Swap(s, i, pick(i));
      FisherYatesKeepsTop(t, i - 1, pick);
      assert FisherYates(s, i, pick) == FisherYates(t, i - 1, pick);
    }
  }

  /** When every draw picks its own position the pass changes nothing. */
  lemma {:induction false} FisherYatesIdentity<T>(s: seq<T>, i: nat, pick: nat -> nat)
    requires i < |s| && ValidPicks(pick)
    requires forall k: nat :: pick(k) == k
    ensures FisherYates(s, i, pick) == s
    decreases i
  {
    if i > 0 {
      assert Swap(s, i, pick(i)) == s;
      FisherYatesIdentity(s, i - 1, pick);
    }
  }

  /** `shuffleBricks`: the in-place Fisher-Yates loop over the grid's
      children. The result is a rearrangement of the bricks, and exactly
      the one the reference pass gives for the same draws. */
  method Shuffle<T>(bricks: seq<T>, rolls: nat -> real) returns (r: seq<T>)
    requires ValidDraws(rolls)
    ensures |r| == |bricks| && multiset(r) == multiset(bricks)
    ensures |bricks| > 0 ==> r == FisherYates(bricks, |bricks| - 1, Picks(rolls))
  {
    r := bricks;
    if |r| == 0 {
      return;
    }
    var pick := Picks(rolls);
    var i := |r| - 1;
    while i > 0
      invariant 0 <= i < |r| == |bricks|
      invariant multiset(r) == multiset(bricks)
      invariant FisherYates(r, i, pick) == FisherYates(bricks, |bricks| - 1, pick)
      decreases i
    {
      var next := Swap(r, i, pick(i));
      FisherYatesStep(r, i, pick);
      SwapPermutes(r, i, pick(i));
      r, i := next, i - 1;
    }
  }

  /** Number of bricks a cascade tries to open: 2, 3 or 4. */
  function CascadeCount(r: real): (c: int)
    requires 0.0 <= r < 1.0
    ensures 2 <= c <= 4
  {
    Pick(r, 3) + 2
  }

  /** Offset of the brick a cascade tick aims at, from the origin brick. */
  function Offset(r: real): (d: int)
    requires 0.0 <= r < 1.0
    ensures -Reach <= d < Reach
  {
    Pick(r, 10) - Reach
  }

  /** Every offset from -5 to 4 can be drawn; +5 never can. */
  lemma OffsetSpan(d: int)
    requires -Reach <= d < Reach
    ensures Offset((d + Reach) as real / 10.0) == d
  {
    ScaleIsProduct((d + Reach) as real / 10.0, 10);
  }

  /** The state a cascade leaves behind. */
  datatype Outcome = Outcome(revealed: seq<bool>, openCount: nat, attempts: nat, clicked: seq<nat>)

  /** `triggerCascade` from the brick at `origin`, one loop round per
      interval tick. Each tick aims at a brick within -5..4 of the origin and
      clicks it when it exists, is not the origin and is not yet revealed.
      The cascade stops once it has opened its count or after 21 ticks.
      Every clicked brick was hidden before, is clicked once, and is the only
      kind of brick that changes. */
  method TriggerCascade(revealed: seq<bool>, origin: nat, countRoll: real, offsetRolls: nat -> real)
    returns (c: Outcome)
    requires origin < |revealed|
    requires 0.0 <= countRoll < 1.0 && ValidDraws(offsetRolls)
    ensures |c.revealed| == |revealed|
    ensures c.openCount == |c.clicked| <= CascadeCount(countRoll)
    ensures c.attempts <= MaxAttempts + 1
    ensures c.openCount < CascadeCount(countRoll) ==> c.attempts == MaxAttempts + 1
    ensures forall p :: 0 <= p < |c.clicked| ==>
              c.clicked[p] < |revealed| && c.clicked[p] != origin && !revealed[c.clicked[p]]
              && origin - Reach <= c.clicked[p] < origin + Reach
    ensures forall p, q :: 0 <= p < q < |c.clicked| ==> c.clicked[p] != c.clicked[q]
    ensures forall k :: 0 <= k < |revealed| ==> (c.revealed[k] <==> revealed[k] || k in c.clicked)
  {
    var count := CascadeCount(countRoll);
    var cur := revealed;
    var openCount: nat := 0;
    var attempts: nat := 0;
    var clicked: seq<nat> := [];
    while !(openCount >= count || attempts > MaxAttempts)
      invariant |cur| == |revealed|
      invariant openCount == |clicked| <= count
      invariant attempts <= MaxAttempts + 1
      invariant forall p :: 0 <= p < |clicked| ==>
                  clicked[p] < |revealed| && clicked[p] != origin && !revealed[clicked[p]]
                  && origin - Reach <= clicked[p] < origin + Reach
      invariant forall p, q :: 0 <= p < q < |clicked| ==> clicked[p] != clicked[q]
      invariant forall k :: 0 <= k < |revealed| ==> (cur[k] <==> revealed[k] || k in clicked)
      decreases MaxAttempts + 1 - attempts
    {
      var target := origin + Offset(offsetRolls(attempts));
      if 0 <= target < |cur| && target != origin && !cur[target] {
        cur := cur[target := true];
        openCount := openCount + 1;
        clicked := clicked + [target];
      }
      attempts := attempts + 1;
    }
    c := Outcome(cur, openCount, attempts, clicked);
  }
}
