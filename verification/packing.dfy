/** The acceptance test of the packing worker (`get_radius`) and the append-only set of
    placements it guards (`packed`). A candidate centre gets the largest radius its slack to
    the unit sphere allows, shrunk by `1/sqrt(3)` and clamped to `MAX_R`; it is rejected when
    that radius is below `MIN_R`, and kept only when it leaves a gap of at least `MIN_R` to
    every earlier placement. */
module Packing {
  import opened Geometry

  /** Target number of placements. */
  const N: nat := 6000
  /** Smallest radius, and the minimum gap between two spheres. */
  const MIN_R: real := 0.003
  /** Largest radius. */
  const MAX_R: real := 0.3

  /** One accepted sphere, stored as the quadruple `(x, y, z, r)`. */
  datatype Placement = Placement(center: Point, r: real)

  function Min(a: real, b: real): real { if a <= b then a else b }

  /** How far a centre is from the unit sphere: `1 - |c|`. */
  function Slack(sqrt: real -> real, c: Point): real
    requires IsSqrt(sqrt)
  {
    1.0 - Norm(sqrt, c)
  }

  /** The shrunk radius `Math.sqrt(s * s * 4 / 3) / 2`, before the clamp to `MAX_R`. */
  function Shrink(sqrt: real -> real, s: real): (r0: real)
    requires IsSqrt(sqrt)
  {
    sqrt(s * s * 4.0 / 3.0) / 2.0
  }

  /** The shrink factor is `1/sqrt(3)`: the shrunk radius squared is a third of the slack
      squared, and for a non-negative slack it never exceeds the slack. */
  lemma ShrinkIsThird(sqrt: real -> real, s: real)
    requires IsSqrt(sqrt)
    ensures Shrink(sqrt, s) >= 0.0
    ensures 3.0 * Shrink(sqrt, s) * Shrink(sqrt, s) == s * s
    ensures s >= 0.0 ==> Shrink(sqrt, s) <= s
  {
    var t := sqrt(s * s * 4.0 / 3.0);
    var r0 := Shrink(sqrt, s);
    assert t >= 0.0 && t * t == s * s * 4.0 / 3.0;
    assert r0 * r0 == t * t / 4.0;
    if s >= 0.0 {
      SquareMonotone(s, r0);
    }
  }

  /** The first half of `get_radius`: the radius the boundary alone permits, or 0 when the
      slack or the shrunk radius falls below `MIN_R`. */
  function BoundaryRadius(sqrt: real -> real, c: Point): (r: real)
    requires IsSqrt(sqrt)
    ensures r == 0.0 || MIN_R <= r <= MAX_R
    ensures Slack(sqrt, c) < MIN_R ==> r == 0.0
    ensures r != 0.0 <==>
              Slack(sqrt, c) >= MIN_R && Slack(sqrt, c) * Slack(sqrt, c) >= 3.0 * MIN_R * MIN_R
    ensures r != 0.0 ==> 3.0 * r * r <= Slack(sqrt, c) * Slack(sqrt, c)
    ensures r != 0.0 ==> r == MAX_R || 3.0 * r * r == Slack(sqrt, c) * Slack(sqrt, c)
    ensures r != 0.0 ==> Norm(sqrt, c) + r <= 1.0
  {
    var s := Slack(sqrt, c);
    if s < MIN_R then 0.0
    else
      ShrinkIsThird(sqrt, s);
      SquareMonotone(Shrink(sqrt, s), MIN_R);
      SquareMonotone(Shrink(sqrt, s), MAX_R);
      var r := Min(Shrink(sqrt, s), MAX_R);
      if r < MIN_R then 0.0 else r
  }

  /** The test inside the scan of `get_radius`: the candidate sphere comes closer than
      `MIN_R` to the placement `p`. */
  predicate Conflicts(sqrt: real -> real, c: Point, r: real, p: Placement)
    requires IsSqrt(sqrt)
  {
    Dist(sqrt, c, p.center) < r + p.r + MIN_R
  }

  /** `get_radius(x, y, z, n)` with `packed` holding the first `n` placements: the boundary
      radius, or 0 when it is 0 or the candidate conflicts with some earlier placement. */
  function GetRadius(sqrt: real -> real, c: Point, packed: seq<Placement>): (r: real)
    requires IsSqrt(sqrt)
    ensures r == 0.0 || MIN_R <= r <= MAX_R
    ensures Slack(sqrt, c) < MIN_R ==> r == 0.0
    ensures r != 0.0 ==> Norm(sqrt, c) + r <= 1.0
    ensures r != 0.0 ==> forall i :: 0 <= i < |packed| ==>
              Dist(sqrt, c, packed[i].center) >= r + packed[i].r + MIN_R
    ensures (exists i :: 0 <= i < |packed| && Conflicts(sqrt, c, BoundaryRadius(sqrt, c), packed[i]))
              ==> r == 0.0
    ensures |packed| == 0 ==> r == BoundaryRadius(sqrt, c)
    ensures r != 0.0 ==> r == BoundaryRadius(sqrt, c)
    ensures (forall i :: 0 <= i < |packed| ==> !Conflicts(sqrt, c, BoundaryRadius(sqrt, c), packed[i]))
              ==> r == BoundaryRadius(sqrt, c)
    ensures r != 0.0 ==> 3.0 * r * r <= Slack(sqrt, c) * Slack(sqrt, c)
  {
    var r := BoundaryRadius(sqrt, c);
    if r == 0.0 then 0.0
    else if |packed| == 0 then r
    else if exists i :: 0 <= i < |packed| && Conflicts(sqrt, c, r, packed[i]) then 0.0
    else r
  }

  /** `get_radius` as written: the scan over `packed` stops at the first conflict. */
  method ComputeRadius(sqrt: real -> real, c: Point, packed: seq<Placement>) returns (r: real)
    requires IsSqrt(sqrt)
    ensures r == GetRadius(sqrt, c, packed)
  {
    r := 1.0 - Norm(sqrt, c);
    if r < MIN_R {
      return 0.0;
    }
    r := Min(Shrink(sqrt, r), MAX_R);
    if r < MIN_R {
      return 0.0;
    }
    if |packed| == 0 {
      return r;
    }
    var i := 0;
    while i < |packed|
      invariant 0 <= i <= |packed|
      invariant r == BoundaryRadius(sqrt, c) != 0.0
      invariant forall j :: 0 <= j < i ==> !Conflicts(sqrt, c, r, packed[j])
    {
      if Conflicts(sqrt, c, r, packed[i]) {
        r := 0.0;
        break;
      }
      i := i + 1;
    }
  }

  /** Radius within the configured bounds. */
  predicate InRange(p: Placement) {
    MIN_R <= p.r <= MAX_R
  }

  /** The sphere lies in the closed unit ball: `|c| + r <= 1`, squared. */
  predicate Inside(p: Placement) {
    p.r <= 1.0 && SqDist(Origin, p.center) <= Square(1.0 - p.r)
  }

  /** Two spheres keep the minimum gap: `dist(a, b) >= a.r + b.r + MIN_R`, squared. */
  predicate Separated(a: Placement, b: Placement) {
    SqDist(a.center, b.center) >= Square(a.r + b.r + MIN_R)
  }

  /** The invariant of the placement set: bounded radii, containment, pairwise gaps. */
  predicate Valid(packed: seq<Placement>) {
    (forall i :: 0 <= i < |packed| ==> InRange(packed[i]) && Inside(packed[i])) &&
    (forall i, j :: 0 <= i < j < |packed| ==> Separated(packed[i], packed[j]))
  }

  /** A candidate is accepted exactly when the boundary permits a radius and that sphere keeps
      the gap to every earlier placement; the accepted sphere is in range and in the ball. */
  lemma AcceptanceCharacterized(sqrt: real -> real, c: Point, packed: seq<Placement>)
    requires IsSqrt(sqrt)
    requires forall i :: 0 <= i < |packed| ==> packed[i].r >= 0.0
    ensures var br := BoundaryRadius(sqrt, c);
            GetRadius(sqrt, c, packed) != 0.0 <==>
              br != 0.0 && forall i :: 0 <= i < |packed| ==> Separated(Placement(c, br), packed[i])
    ensures GetRadius(sqrt, c, packed) != 0.0 ==>
              InRange(Placement(c, GetRadius(sqrt, c, packed))) &&
              Inside(Placement(c, GetRadius(sqrt, c, packed)))
  {
    var br := BoundaryRadius(sqrt, c);
    if br != 0.0 {
      forall i | 0 <= i < |packed|
        ensures Conflicts(sqrt, c, br, packed[i]) <==> !Separated(Placement(c, br), packed[i])
      {
        DistBelow(sqrt, c, packed[i].center, br + packed[i].r + MIN_R);
      }
      InBallSquared(sqrt, c, br);
    }
  }

  /** One iteration of the append loop: the candidate is stored at index `n` when accepted,
      and nothing changes otherwise. */
  function Step(sqrt: real -> real, packed: seq<Placement>, c: Point): (next: seq<Placement>)
    requires IsSqrt(sqrt)
    ensures |packed| <= |next| <= |packed| + 1
    ensures next[..|packed|] == packed
    ensures |next| == |packed| + 1 <==> GetRadius(sqrt, c, packed) != 0.0
    ensures |next| == |packed| + 1 ==> next[|packed|] == Placement(c, GetRadius(sqrt, c, packed))
  {
    var r := GetRadius(sqrt, c, packed);
    if r == 0.0 then packed else packed + [Placement(c, r)]
  }

  /** Appending an accepted placement keeps the invariant on the longer prefix. */
  lemma StepPreservesValid(sqrt: real -> real, packed: seq<Placement>, c: Point)
    requires IsSqrt(sqrt)
    requires Valid(packed)
    ensures Valid(Step(sqrt, packed, c))
  {
    var next := Step(sqrt, packed, c);
    if |next| == |packed| + 1 {
      AcceptanceCharacterized(sqrt, c, packed);
      var p := next[|packed|];
      forall i | 0 <= i < |packed|
        ensures Separated(packed[i], p)
      {
        SqDistSymmetric(packed[i].center, p.center);
        assert packed[i].r + p.r + MIN_R == p.r + packed[i].r + MIN_R;
      }
      forall i, j | 0 <= i < j < |next|
        ensures Separated(next[i], next[j])
      {
        if j < |packed| {
          assert next[i] == packed[i] && next[j] == packed[j];
        } else {
          assert next[i] == packed[i] && next[j] == p;
        }
      }
    }
  }

  /** The placement set after a run of candidates from an empty start. */
  function Replay(sqrt: real -> real, cands: seq<Point>): (packed: seq<Placement>)
    requires IsSqrt(sqrt)
    ensures Valid(packed)
    ensures |packed| <= |cands|
  {
    if |cands| == 0 then []
    else
      var prev := Replay(sqrt, cands[..|cands| - 1]);
      StepPreservesValid(sqrt, prev, cands[|cands| - 1]);
      Step(sqrt, prev, cands[|cands| - 1])
  }

  /** Using one more candidate is one more `Step`. */
  lemma ReplayNext(sqrt: real -> real, cands: seq<Point>, k: nat)
    requires IsSqrt(sqrt)
    requires k < |cands|
    ensures Replay(sqrt, cands[..k + 1]) == Step(sqrt, Replay(sqrt, cands[..k]), cands[k])
  {
    assert cands[..k + 1][..k] == cands[..k];
  }

  /** The placement set is append-only: what a shorter run of candidates placed is a prefix of
      what any longer run places. */
  lemma {:induction false} ReplayAppendOnly(sqrt: real -> real, cands: seq<Point>, k: nat)
    requires IsSqrt(sqrt)
    requires k <= |cands|
    ensures Replay(sqrt, cands[..k]) <= Replay(sqrt, cands)
    decreases |cands| - k
  {
    if k < |cands| {
      var init := cands[..|cands| - 1];
      assert init[..k] == cands[..k];
      ReplayAppendOnly(sqrt, init, k);
      var prev := Replay(sqrt, init);
      assert Replay(sqrt, cands) == Step(sqrt, prev, cands[|cands| - 1]);
    } else {
      assert cands[..k] == cands;
    }
  }
}
