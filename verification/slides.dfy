/** The slide deck of the activity console (`moveSlide` in `script.js`):
    the slides are a list of "active" flags; a move clears every flag and
    sets the one `n` places after the last active slide.

    JavaScript's `%` keeps the sign of the dividend, so a move far enough
    backwards yields a negative index; `slides[-k]` is `undefined` and the
    move then stops with a TypeError after all flags were already cleared.
    That outcome is `Broken`. */
module Slides {
  datatype Deck = Moved(active: seq<bool>) | Broken(active: seq<bool>)

  /** `a % m` as JavaScript computes it: truncated, with the sign of `a`. */
  function JsRem(a: int, m: int): (r: int)
    requires m > 0
    ensures a >= 0 ==> 0 <= r < m
    ensures a < 0 ==> -m < r <= 0
  {
    if a >= 0 then a % m else -((-a) % m)
  }

  /** For a dividend that is not negative it is the Euclidean remainder. */
  lemma JsRemNatural(a: int, m: int)
    requires m > 0 && a >= 0
    ensures JsRem(a, m) == a % m
  {
  }

  /** For a negative dividend JavaScript's remainder is the Euclidean one
      shifted down by the modulus, unless both are 0. */
  lemma JsRemNegative(a: int, m: int)
    requires m > 0 && a < 0
    ensures JsRem(a, m) == 0 <==> a % m == 0
    ensures JsRem(a, m) != 0 ==> JsRem(a, m) == a % m - m
  {
    var q := (-a) / m;
    var r := (-a) % m;
    assert -a == q * m + r;
    if r == 0 {
      assert a == (-q) * m + 0;
      ModUnique(a, m, -q, 0);
    } else {
      assert a == (-q - 1) * m + (m - r);
      ModUnique(a, m, -q - 1, m - r);
    }
  }

  /** The index of the last active slide, or 0 when none is active. */
  function LastActive(s: seq<bool>): (i: nat)
    ensures |s| > 0 ==> i < |s|
    ensures (exists k :: 0 <= k < |s| && s[k]) ==> s[i] && forall k :: i < k < |s| ==> !s[k]
    ensures (forall k :: 0 <= k < |s| ==> !s[k]) ==> i == 0
    decreases |s|
  {
    if |s| == 0 then 0
    else if s[|s| - 1] then |s| - 1
    else
      assert forall k :: 0 <= k < |s| - 1 ==> s[..|s| - 1][k] == s[k];
      LastActive(s[..|s| - 1])
  }

  /** Exactly the slide at `k` is active. */
  function Only(len: nat, k: int): seq<bool> {
    seq(len, j => j == k)
  }

  predicate OnlyActive(s: seq<bool>, k: int) {
    0 <= k < |s| && forall j :: 0 <= j < |s| ==> (s[j] <==> j == k)
  }

  /** `moveSlide(n)`. An empty deck is left alone. Otherwise the move lands
      on (last active + n + length) taken with JavaScript's `%`; when that
      is not negative exactly the slide there is active, and when it is the
      move breaks with every slide cleared. */
  function MoveSlide(s: seq<bool>, n: int): (r: Deck)
    ensures |r.active| == |s|
    ensures |s| == 0 ==> r == Moved(s)
    ensures r.Broken? ==> forall j :: 0 <= j < |s| ==> !r.active[j]
    ensures r.Broken? <==> |s| > 0 && JsRem(LastActive(s) + n + |s|, |s|) < 0
    ensures |s| > 0 && r.Moved? ==> OnlyActive(r.active, JsRem(LastActive(s) + n + |s|, |s|))
  {
    if |s| == 0 then Moved(s) else Place(|s|, JsRem(LastActive(s) + n + |s|, |s|))
  }

  /** The deck after every flag was cleared and `slides[next]` was made
      active: an index outside the deck reads `undefined` and the move
      breaks. */
  function Place(len: nat, next: int): (r: Deck)
    ensures |r.active| == len
    ensures r.Broken? <==> next < 0 || len <= next
    ensures r.Broken? ==> forall j :: 0 <= j < len ==> !r.active[j]
    ensures r.Moved? ==> OnlyActive(r.active, next)
  {
    if 0 <= next < len then Moved(Only(len, next)) else Broken(Only(len, -1))
  }

  /** Any move that is not more than a full turn backwards past the first
      slide succeeds and lands on (last active + n) mod length; a move
      further back breaks exactly when that sum, plus the length, is not a
      multiple of the length. */
  lemma MoveLands(s: seq<bool>, n: int)
    requires |s| > 0
    ensures LastActive(s) + n + |s| >= 0 ==>
              MoveSlide(s, n) == Moved(Only(|s|, (LastActive(s) + n) % |s|))
    ensures MoveSlide(s, n).Broken? <==>
              LastActive(s) + n + |s| < 0 && (LastActive(s) + n) % |s| != 0
  {
    var x := LastActive(s) + n;
    PlaceLands(|s|, x);
    assert MoveSlide(s, n) == Place(|s|, JsRem(x + |s|, |s|));
  }

  /** `MoveLands` for a slide count `len` and a sum `x` of the last
      active index and the step. */
  lemma PlaceLands(len: nat, x: int)
    requires len > 0
    ensures x + len >= 0 ==> Place(len, JsRem(x + len, len)) == Moved(Only(len, x % len))
    ensures Place(len, JsRem(x + len, len)).Broken? <==> x + len < 0 && x % len != 0
  {
    ShiftedRem(x, len);
  }

  /** JavaScript's remainder of `x + m`: the Euclidean remainder of `x`
      when the sum is not negative; otherwise negative exactly when `m`
      does not divide `x`. */
  lemma ShiftedRem(x: int, m: int)
    requires m > 0
    ensures 0 <= x % m < m
    ensures x + m >= 0 ==> JsRem(x + m, m) == x % m
    ensures x + m < 0 ==> (JsRem(x + m, m) < 0 <==> x % m != 0)
  {
    ModShift(x, m);
    if x + m < 0 {
      JsRemNegative(x + m, m);
    } else {
      JsRemNatural(x + m, m);
    }
  }

  /** In a deck with exactly one active slide that slide is the last
      active one. */
  lemma LastActiveOfOnly(s: seq<bool>, k: int)
    requires OnlyActive(s, k)
    ensures LastActive(s) == k
  {
    assert s[k];
  }

  /** Adding the modulus does not change the Euclidean remainder. */
  lemma ModShift(x: int, m: int)
    requires m > 0
    ensures (x + m) % m == x % m
  {
    var q := x / m;
    assert x == q * m + x % m;
    assert x + m == (q + 1) * m + x % m;
    ModUnique(x + m, m, q + 1, x % m);
  }

  /** The quotient and remainder of Euclidean division are unique. */
  lemma ModUnique(a: int, m: int, q: int, r: int)
    requires m > 0 && a == q * m + r && 0 <= r < m
    ensures a % m == r
  {
    var q0 := a / m;
    var r0 := a % m;
    assert a == q0 * m + r0;
    assert (q - q0) * m == r0 - r;
    if q > q0 {
      assert (q - q0) * m >= m by { ProductAtLeast(q - q0, m); }
    } else if q < q0 {
      assert (q0 - q) * m >= m by { ProductAtLeast(q0 - q, m); }
    }
  }

  lemma ProductAtLeast(k: int, m: int)
    requires k >= 1 && m > 0
    ensures k * m >= m
  {
  }

  /** The arithmetic of a move and its inverse. */
  lemma BackAgain(a: int, n: int, len: int)
    requires 0 <= a < len && -len <= n <= len
    ensures (a + n) % len - n + len >= 0
    ensures ((a + n) % len - n) % len == a
  {
    var b := (a + n) % len;
    var q := (a + n) / len;
    assert a + n == q * len + b;
    assert b - n == a + (-q) * len;
    ModUnique(b - n, len, -q, a);
  }

  /** A move by `n` undone by a move by `-n`: from a deck with exactly one
      active slide, any move of at most a full turn either way comes back
      to that slide. */
  lemma MoveBackReturns(s: seq<bool>, a: nat, n: int)
    requires OnlyActive(s, a)
    requires -|s| <= n <= |s|
    ensures MoveSlide(s, n).Moved?
    ensures MoveSlide(MoveSlide(s, n).active, -n) == Moved(s)
  {
    var len := |s|;
    LastActiveOfOnly(s, a);
    MoveLands(s, n);
    var b := (a + n) % len;
    var t := Only(len, b);
    assert MoveSlide(s, n).active == t;
    assert OnlyActive(t, b);
    LastActiveOfOnly(t, b);
    BackAgain(a, n, len);
    MoveLands(t, -n);
    assert Only(len, a) == s;
  }

  /** A move of at most a full turn backwards, such as the auto-advance
      (`n = 1`) or a "previous" button (`n = -1`), never breaks and always
      leaves exactly one active slide, whatever the deck held before. */
  lemma ShortMovesNeverBreak(s: seq<bool>, n: int)
    requires |s| > 0 && -|s| <= n
    ensures MoveSlide(s, n) == Moved(Only(|s|, (LastActive(s) + n) % |s|))
    ensures 0 <= (LastActive(s) + n) % |s| < |s|
  {
    MoveLands(s, n);
  }

  /** Five back from the first of three slides lands on -2 and breaks. */
  lemma LongMoveBackBreaks()
    ensures MoveSlide([true, false, false], -5) == Broken([false, false, false])
  {
    assert LastActive([true, false, false]) == 0;
    assert JsRem(-2, 3) == -2;
    assert Only(3, -1) == [false, false, false];
  }
}
