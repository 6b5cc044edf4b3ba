/**
 Douglas-Peucker simplification over exact numbers. Distances are compared by
 their squares, so that no root has to be taken.
 */
module Simplify {
  import opened Clipping

  function Square(x: real): real {
    x * x
  }

  function Len2(x: real, y: real): real {
    Square(x) + Square(y)
  }

  function Gap2(p: Point, q: Point): real {
    Len2(p.x - q.x, p.y - q.y)
  }

  lemma SquareSign(x: real)
    ensures 0.0 <= Square(x) && (Square(x) == 0.0 <==> x == 0.0)
  {
    if x < 0.0 {
      Positive(-x);
      assert Square(-x) == Square(x);
    } else if x > 0.0 {
      Positive(x);
    }
  }

  lemma Positive(x: real)
    requires x > 0.0
    ensures Square(x) > 0.0
  {
    ProductSign(x, x);
    var inverse := 1.0 / x;
    assert inverse * Square(x) == (inverse * x) * x;
  }

  function Dot(wx: real, wy: real, vx: real, vy: real): real {
    wx * vx + wy * vy
  }

  function Cross(wx: real, wy: real, vx: real, vy: real): real {
    vx * wy - wx * vy
  }

  /** The squared distance of the origin from the line through `w` in direction `v`. */
  function Perp2(wx: real, wy: real, vx: real, vy: real): real
    requires Len2(vx, vy) != 0.0
  {
    Square(Cross(wx, wy, vx, vy)) / Len2(vx, vy)
  }

  /** The squared distance of `p` from the line through `a` and `b`, or from `a` when they coincide. */
  function Dist2(p: Point, a: Point, b: Point): real {
    if Len2(b.x - a.x, b.y - a.y) == 0.0 then Gap2(p, a)
    else Perp2(a.x - p.x, a.y - p.y, b.x - a.x, b.y - a.y)
  }

  lemma SquareOfSum(x: real, y: real)
    ensures Square(x + y) == Square(x) + 2.0 * (x * y) + Square(y)
  {
  }

  lemma SquareOfProduct(x: real, y: real)
    ensures Square(x * y) == Square(x) * Square(y)
  {
  }

  lemma Swap(a: real, b: real, c: real, d: real)
    ensures (a * b) * (c * d) == (a * d) * (c * b)
  {
  }

  lemma FourProducts(a: real, b: real, c: real, d: real)
    ensures (a + b) * (c + d) == a * c + a * d + b * c + b * d
  {
  }

  lemma Lagrange(wx: real, wy: real, vx: real, vy: real)
    ensures Len2(vx, vy) * Len2(wx, wy) == Square(Dot(wx, wy, vx, vy)) + Square(Cross(wx, wy, vx, vy))
  {
    FourProducts(Square(vx), Square(vy), Square(wx), Square(wy));
    SquareOfProduct(wx, vx);
    SquareOfProduct(wy, vy);
    SquareOfProduct(vx, wy);
    SquareOfProduct(wx, vy);
    SquareOfSum(wx * vx, wy * vy);
    SquareOfSum(vx * wy, -(wx * vy));
    Swap(wx, vx, wy, vy);
    Negated(vx * wy, wx * vy);
  }

  lemma Negated(x: real, y: real)
    ensures x * -y == -(x * y) && Square(-y) == Square(y)
  {
  }

  lemma Expanded(wx: real, wy: real, vx: real, vy: real, t: real)
    ensures Len2(wx + t * vx, wy + t * vy) == Len2(wx, wy) + 2.0 * (t * Dot(wx, wy, vx, vy)) + Square(t) * Len2(vx, vy)
  {
    SquareOfSum(wx, t * vx);
    SquareOfSum(wy, t * vy);
    SquareOfProduct(t, vx);
    SquareOfProduct(t, vy);
    assert wx * (t * vx) == t * (wx * vx) && wy * (t * vy) == t * (wy * vy);
  }

  lemma Completed(len2: real, dot: real, w2: real, cross2: real, t: real)
    requires len2 * w2 == Square(dot) + cross2
    ensures len2 * (w2 + 2.0 * (t * dot) + Square(t) * len2) == Square(t * len2 + dot) + cross2
  {
    SquareOfSum(t * len2, dot);
    SquareOfProduct(t, len2);
    assert len2 * (Square(t) * len2) == Square(t) * Square(len2);
    assert (t * len2) * dot == len2 * (t * dot);
  }

  lemma Pythagoras(wx: real, wy: real, vx: real, vy: real, t: real)
    ensures Len2(vx, vy) * Len2(wx + t * vx, wy + t * vy)
         == Square(t * Len2(vx, vy) + Dot(wx, wy, vx, vy)) + Square(Cross(wx, wy, vx, vy))
  {
    Lagrange(wx, wy, vx, vy);
    Expanded(wx, wy, vx, vy, t);
    Completed(Len2(vx, vy), Dot(wx, wy, vx, vy), Len2(wx, wy), Square(Cross(wx, wy, vx, vy)), t);
  }

  lemma Quotient(len2: real, gap: real, square: real, rest: real)
    requires len2 > 0.0 && rest >= 0.0 && len2 * gap == rest + square
    ensures square / len2 <= gap && (rest == 0.0 ==> square / len2 == gap)
  {
    var q := square / len2;
    assert q * len2 == square;
    assert (gap - q) * len2 == rest;
    SignOfProduct(gap - q, len2);
  }

  lemma SignOfProduct(x: real, y: real)
    requires y > 0.0
    ensures x < 0.0 ==> x * y < 0.0
    ensures x > 0.0 ==> x * y > 0.0
  {
    if x < 0.0 {
      assert x * y < 0.0;
    } else if x > 0.0 {
      assert x * y > 0.0;
    }
  }

  lemma LengthSign(vx: real, vy: real)
    ensures 0.0 <= Len2(vx, vy) && (Len2(vx, vy) == 0.0 <==> vx == 0.0 && vy == 0.0)
  {
    SquareSign(vx);
    SquareSign(vy);
  }

  lemma OriginIsNoNearer(wx: real, wy: real, vx: real, vy: real, t: real)
    requires Len2(vx, vy) != 0.0
    ensures Perp2(wx, wy, vx, vy) <= Len2(wx + t * vx, wy + t * vy)
  {
    LengthSign(vx, vy);
    Pythagoras(wx, wy, vx, vy, t);
    SquareSign(t * Len2(vx, vy) + Dot(wx, wy, vx, vy));
    Quotient(Len2(vx, vy), Len2(wx + t * vx, wy + t * vy), Square(Cross(wx, wy, vx, vy)),
             Square(t * Len2(vx, vy) + Dot(wx, wy, vx, vy)));
  }

  lemma Divided(x: real, y: real) returns (q: real)
    requires y != 0.0
    ensures q * y == x
  {
    q := x / y;
  }

  lemma OriginIsThatNear(wx: real, wy: real, vx: real, vy: real) returns (t: real)
    requires Len2(vx, vy) != 0.0
    ensures Perp2(wx, wy, vx, vy) == Len2(wx + t * vx, wy + t * vy)
  {
    LengthSign(vx, vy);
    t := Divided(-Dot(wx, wy, vx, vy), Len2(vx, vy));
    Pythagoras(wx, wy, vx, vy, t);
    SquareSign(t * Len2(vx, vy) + Dot(wx, wy, vx, vy));
    Quotient(Len2(vx, vy), Len2(wx + t * vx, wy + t * vy), Square(Cross(wx, wy, vx, vy)),
             Square(t * Len2(vx, vy) + Dot(wx, wy, vx, vy)));
  }

  lemma Opposite(x: real, y: real)
    requires x == -y
    ensures Square(x) == y * y
  {
  }

  /** `q` is a point of the line through `a` and `b`, or `a` itself when they coincide. */
  ghost predicate OnLineThrough(q: Point, a: Point, b: Point, t: real) {
    q.x == a.x + t * (b.x - a.x) && q.y == a.y + t * (b.y - a.y)
  }

  lemma SameGap(p: Point, q: Point, a: Point, b: Point, t: real)
    requires OnLineThrough(q, a, b, t)
    ensures Len2((a.x - p.x) + t * (b.x - a.x), (a.y - p.y) + t * (b.y - a.y))
         == (p.x - q.x) * (p.x - q.x) + (p.y - q.y) * (p.y - q.y)
  {
    Opposite((a.x - p.x) + t * (b.x - a.x), p.x - q.x);
    Opposite((a.y - p.y) + t * (b.y - a.y), p.y - q.y);
  }

  lemma Still(a: real, b: real, t: real)
    requires a == b
    ensures a + t * (b - a) == a
  {
    assert b - a == 0.0;
  }

  lemma Coincide(a: Point, b: Point)
    requires Len2(b.x - a.x, b.y - a.y) == 0.0
    ensures a == b
  {
    LengthSign(b.x - a.x, b.y - a.y);
  }

  lemma OnePointLine(q: Point, a: Point, b: Point, t: real)
    requires OnLineThrough(q, a, b, t) && a == b
    ensures q == a
  {
    Still(a.x, b.x, t);
    Still(a.y, b.y, t);
  }

  lemma OnePointGap(p: Point, a: Point, b: Point, q: Point)
    requires Len2(b.x - a.x, b.y - a.y) == 0.0 && q == a
    ensures Dist2(p, a, b) == (p.x - q.x) * (p.x - q.x) + (p.y - q.y) * (p.y - q.y)
  {
  }

  lemma NoNearerAtOnePoint(p: Point, a: Point, b: Point, q: Point, t: real)
    requires OnLineThrough(q, a, b, t) && Len2(b.x - a.x, b.y - a.y) == 0.0
    ensures Dist2(p, a, b) == (p.x - q.x) * (p.x - q.x) + (p.y - q.y) * (p.y - q.y)
  {
    assert q == a by {
      Coincide(a, b);
      OnePointLine(q, a, b, t);
    }
    OnePointGap(p, a, b, q);
  }

  lemma FormulaIsPerp(p: Point, a: Point, b: Point)
    requires Len2(b.x - a.x, b.y - a.y) != 0.0
    ensures Dist2(p, a, b) == Perp2(a.x - p.x, a.y - p.y, b.x - a.x, b.y - a.y)
  {
  }

  lemma NoNearerOnLine(p: Point, a: Point, b: Point, q: Point, t: real)
    requires OnLineThrough(q, a, b, t) && Len2(b.x - a.x, b.y - a.y) != 0.0
    ensures Dist2(p, a, b) <= (p.x - q.x) * (p.x - q.x) + (p.y - q.y) * (p.y - q.y)
  {
    var vx, vy := b.x - a.x, b.y - a.y;
    var wx, wy := a.x - p.x, a.y - p.y;
    FormulaIsPerp(p, a, b);
    OriginIsNoNearer(wx, wy, vx, vy, t);
    SameGap(p, q, a, b, t);
  }

  /** No point of the line through `a` and `b` is nearer to `p` than the formula says, by squared lengths. */
  lemma LineIsNoNearer(p: Point, a: Point, b: Point, q: Point, t: real)
    requires OnLineThrough(q, a, b, t)
    ensures Dist2(p, a, b) <= (p.x - q.x) * (p.x - q.x) + (p.y - q.y) * (p.y - q.y)
  {
    if Len2(b.x - a.x, b.y - a.y) == 0.0 {
      NoNearerAtOnePoint(p, a, b, q, t);
    } else {
      NoNearerOnLine(p, a, b, q, t);
    }
  }

  /** And one point of it is exactly that near. */
  lemma LineIsThatNear(p: Point, a: Point, b: Point) returns (q: Point, t: real)
    ensures OnLineThrough(q, a, b, t)
    ensures Dist2(p, a, b) == (p.x - q.x) * (p.x - q.x) + (p.y - q.y) * (p.y - q.y)
  {
    if Len2(b.x - a.x, b.y - a.y) == 0.0 {
      q, t := a, 0.0;
      OnePointGap(p, a, b, q);
    } else {
      t := OriginIsThatNear(a.x - p.x, a.y - p.y, b.x - a.x, b.y - a.y);
      q := Point(a.x + t * (b.x - a.x), a.y + t * (b.y - a.y));
      SameGap(p, q, a, b, t);
    }
  }

  /** Every point strictly between `lo` and `hi` is within the tolerance of the chord. */
  ghost predicate ChordFits(points: seq<Point>, lo: nat, hi: nat, eps2: real)
    requires lo < |points| && hi < |points|
  {
    forall i :: lo < i < hi ==> Dist2(points[i], points[lo], points[hi]) <= eps2
  }

  /** The indices go up from the first to the last. */
  ghost predicate Ascends(kept: seq<nat>, n: nat) {
    && |kept| > 0 && kept[0] == 0 && kept[|kept| - 1] == n - 1
    && forall k :: 0 < k < |kept| ==> kept[k - 1] < kept[k]
  }

  /** The points between two neighbouring kept ones are close to the line through them. */
  ghost predicate GapFits(points: seq<Point>, kept: seq<nat>, k: int, eps2: real) {
    && 0 < k < |kept| && kept[k - 1] < |points| && kept[k] < |points|
    && ChordFits(points, kept[k - 1], kept[k], eps2)
  }

  ghost predicate Picks(points: seq<Point>, kept: seq<nat>, out: seq<Point>) {
    && |out| == |kept|
    && (if points == [] then out == [] else Ascends(kept, |points|))
    && forall k :: 0 <= k < |kept| ==> kept[k] < |points| && out[k] == points[kept[k]]
  }

  ghost predicate Keeps(points: seq<Point>, kept: seq<nat>, out: seq<Point>, eps2: real) {
    Picks(points, kept, out) && forall k :: 0 < k < |kept| ==> GapFits(points, kept, k, eps2)
  }

  function Shifted(kept: seq<nat>, offset: nat): (shifted: seq<nat>)
    ensures |shifted| == |kept| && forall k :: 0 <= k < |kept| ==> shifted[k] == kept[k] + offset
  {
    seq(|kept|, k requires 0 <= k < |kept| => kept[k] + offset)
  }

  lemma {:induction false} AscentIsBounded(kept: seq<nat>, n: nat, k: nat)
    requires Ascends(kept, n) && k < |kept|
    ensures kept[k] <= n - 1
    decreases |kept| - k
  {
    if k + 1 < |kept| {
      AscentIsBounded(kept, n, k + 1);
    }
  }

  /** Kept indices of the two halves, which share the point they are split at. */
  function Joined(left: seq<nat>, right: seq<nat>, split: nat): seq<nat>
    requires left != []
  {
    left[..|left| - 1] + Shifted(right, split)
  }

  lemma JoinedAscends(left: seq<nat>, right: seq<nat>, split: nat, n: nat)
    requires 0 < split < n - 1 && Ascends(left, split + 1) && Ascends(right, n - split)
    ensures Ascends(Joined(left, right, split), n)
  {
    var kept := Joined(left, right, split);
    forall k | 0 < k < |kept|
      ensures kept[k - 1] < kept[k]
    {
      if k < |left| {
        assert left[k - 1] < left[k];
      } else {
        assert right[k - |left|] < right[k - |left| + 1];
      }
    }
  }

  lemma JoinedPicks(points: seq<Point>, split: nat, left: seq<nat>, right: seq<nat>, outLeft: seq<Point>,
                    outRight: seq<Point>)
    requires 0 < split < |points| - 1
    requires Picks(points[..split + 1], left, outLeft) && Picks(points[split..], right, outRight)
    ensures Picks(points, Joined(left, right, split), outLeft[..|outLeft| - 1] + outRight)
  {
    JoinedAscends(left, right, split, |points|);
  }

  lemma LeftFits(points: seq<Point>, split: nat, left: seq<nat>, right: seq<nat>, k: nat, eps2: real)
    requires split < |points| && 0 < k < |left| && right != [] && right[0] == 0 && left[|left| - 1] == split
    requires GapFits(points[..split + 1], left, k, eps2)
    ensures GapFits(points, Joined(left, right, split), k, eps2)
  {
    var part, lo, hi := points[..split + 1], left[k - 1], left[k];
    forall i | lo < i < hi
      ensures Dist2(points[i], points[lo], points[hi]) <= eps2
    {
      assert Dist2(part[i], part[lo], part[hi]) <= eps2;
    }
  }

  lemma RightFits(points: seq<Point>, split: nat, left: seq<nat>, right: seq<nat>, k: nat, eps2: real)
    requires split < |points| && 0 < k < |right| && left != []
    requires GapFits(points[split..], right, k, eps2)
    ensures GapFits(points, Joined(left, right, split), |left| - 1 + k, eps2)
  {
    var part, lo, hi := points[split..], right[k - 1], right[k];
    forall i | split + lo < i < split + hi
      ensures Dist2(points[i], points[split + lo], points[split + hi]) <= eps2
    {
      assert Dist2(part[i - split], part[lo], part[hi]) <= eps2;
    }
  }

  lemma JoinedKeeps(points: seq<Point>, split: nat, left: seq<nat>, right: seq<nat>,
                    outLeft: seq<Point>, outRight: seq<Point>, eps2: real)
    requires 0 < split < |points| - 1
    requires Keeps(points[..split + 1], left, outLeft, eps2) && Keeps(points[split..], right, outRight, eps2)
    ensures Keeps(points, Joined(left, right, split), outLeft[..|outLeft| - 1] + outRight, eps2)
  {
    JoinedPicks(points, split, left, right, outLeft, outRight);
    var kept := Joined(left, right, split);
    forall k | 0 < k < |kept|
      ensures GapFits(points, kept, k, eps2)
    {
      if k < |left| {
        LeftFits(points, split, left, right, k, eps2);
      } else {
        RightFits(points, split, left, right, k - |left| + 1, eps2);
      }
    }
  }

  /** An inner point farthest from the chord; index 0 when none is off it. */
  method Farthest(points: seq<Point>) returns (max2: real, idx: nat)
    requires |points| >= 3
    ensures forall i :: 0 < i < |points| - 1 ==> Dist2(points[i], points[0], points[|points| - 1]) <= max2
    ensures if idx == 0 then max2 == 0.0
            else idx < |points| - 1 && max2 == Dist2(points[idx], points[0], points[|points| - 1]) && max2 > 0.0
    ensures forall i :: 0 < i < idx ==> Dist2(points[i], points[0], points[|points| - 1]) < max2
  {
    max2, idx := 0.0, 0;
    for i := 1 to |points| - 1
      invariant forall k :: 0 < k < i ==> Dist2(points[k], points[0], points[|points| - 1]) <= max2
      invariant if idx == 0 then max2 == 0.0
                else idx < |points| - 1 && max2 == Dist2(points[idx], points[0], points[|points| - 1]) && max2 > 0.0
      invariant forall k :: 0 < k < idx ==> Dist2(points[k], points[0], points[|points| - 1]) < max2
    {
      var d := Dist2(points[i], points[0], points[|points| - 1]);
      if d > max2 {
        max2, idx := d, i;
      }
    }
  }

  /**
   Keeps the ends and whatever it must: every dropped point is within the
   tolerance of the line through the kept points around it, and all inner points
   are dropped exactly when they all are within it of the chord of the ends.
   */
  method DouglasPeucker(points: seq<Point>, epsilon: real) returns (out: seq<Point>, ghost kept: seq<nat>)
    requires epsilon >= 0.0
    ensures Keeps(points, kept, out, Square(epsilon))
    ensures |points| >= 3 ==> (|out| == 2 <==> ChordFits(points, 0, |points| - 1, Square(epsilon)))
    ensures |points| < 3 ==> out == points
    decreases |points|
  {
    if |points| < 3 {
      return points, seq(|points|, k requires 0 <= k < |points| => k);
    }
    var max2, idx := Farthest(points);
    if max2 <= Square(epsilon) {
      return [points[0], points[|points| - 1]], [0, |points| - 1];
    }
    SquareSign(epsilon);
    var left, keptLeft := DouglasPeucker(points[..idx + 1], epsilon);
    var right, keptRight := DouglasPeucker(points[idx..], epsilon);
    JoinedKeeps(points, idx, keptLeft, keptRight, left, right, Square(epsilon));
    return left[..|left| - 1] + right, Joined(keptLeft, keptRight, idx);
  }
}
