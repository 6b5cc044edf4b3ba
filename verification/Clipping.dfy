/**
 Clipping a polyline to a rectangular window of longitudes and latitudes, over
 exact numbers. One segment keeps exactly its part inside; the runs of a polyline
 stay inside and follow the inside part to within the joining tolerance.
 */
module Clipping {
  import opened Collections
  import opened Wrappers

  datatype Point = Point(x: real, y: real)

  datatype Window = Window(lonMin: real, lonMax: real, latMin: real, latMax: real)

  predicate InWindow(p: Point, w: Window) {
    w.lonMin <= p.x <= w.lonMax && w.latMin <= p.y <= w.latMax
  }

  function Mix(a: real, b: real, t: real): real {
    a + t * (b - a)
  }

  /** The point a fraction `t` of the way from `a` to `b`. */
  function At(a: Point, b: Point, t: real): Point {
    Point(Mix(a.x, b.x, t), Mix(a.y, b.y, t))
  }

  ghost predicate OnSegment(p: Point, a: Point, b: Point) {
    exists t :: 0.0 <= t <= 1.0 && p == At(a, b, t)
  }

  // ---------------------------------------------------------------------
  // One segment
  // ---------------------------------------------------------------------

  /** A half-plane of the window along the segment: `p * t <= q`. */
  datatype Check = Check(p: real, q: real)

  predicate Passes(c: Check, t: real) {
    c.p * t <= c.q
  }

  function Checks(a: Point, b: Point, w: Window): seq<Check> {
    var dx, dy := b.x - a.x, b.y - a.y;
    [Check(-dx, a.x - w.lonMin), Check(dx, w.lonMax - a.x), Check(-dy, a.y - w.latMin), Check(dy, w.latMax - a.y)]
  }

  lemma AboveLow(a: real, b: real, low: real, t: real)
    ensures Passes(Check(-(b - a), a - low), t) <==> low <= Mix(a, b, t)
  {
  }

  lemma BelowHigh(a: real, b: real, high: real, t: real)
    ensures Passes(Check(b - a, high - a), t) <==> Mix(a, b, t) <= high
  {
  }

  lemma ChecksAreWindow(a: Point, b: Point, w: Window, t: real)
    ensures InWindow(At(a, b, t), w) <==> forall i :: 0 <= i < 4 ==> Passes(Checks(a, b, w)[i], t)
  {
    AboveLow(a.x, b.x, w.lonMin, t);
    BelowHigh(a.x, b.x, w.lonMax, t);
    AboveLow(a.y, b.y, w.latMin, t);
    BelowHigh(a.y, b.y, w.latMax, t);
    FourPass(Checks(a, b, w), t);
  }

  lemma FourPass(cs: seq<Check>, t: real)
    requires |cs| == 4
    ensures (forall i :: 0 <= i < 4 ==> Passes(cs[i], t))
       <==> Passes(cs[0], t) && Passes(cs[1], t) && Passes(cs[2], t) && Passes(cs[3], t)
  {
  }

  lemma PassesFrom(c: Check, t: real)
    requires c.p < 0.0
    ensures Passes(c, t) <==> c.q / c.p <= t
  {
    var r := c.q / c.p;
    assert r * c.p == c.q;
    if r <= t {
      assert (t - r) * c.p <= 0.0;
    } else {
      assert (t - r) * c.p > 0.0;
    }
  }

  lemma PassesTo(c: Check, t: real)
    requires c.p > 0.0
    ensures Passes(c, t) <==> t <= c.q / c.p
  {
    var r := c.q / c.p;
    assert r * c.p == c.q;
    if t <= r {
      assert (r - t) * c.p >= 0.0;
    } else {
      assert (r - t) * c.p < 0.0;
    }
  }

  ghost predicate PassFirst(checks: seq<Check>, n: nat, t: real)
    requires n <= |checks|
  {
    0.0 <= t <= 1.0 && forall i :: 0 <= i < n ==> Passes(checks[i], t)
  }

  /** The part of the segment that passes every check, as a range of `t`. */
  method Narrow(checks: seq<Check>) returns (range: Option<(real, real)>)
    ensures range.None? ==> forall t :: !PassFirst(checks, |checks|, t)
    ensures range.Some? ==> 0.0 <= range.value.0 <= range.value.1 <= 1.0
    ensures range.Some? ==> forall t :: PassFirst(checks, |checks|, t) <==> range.value.0 <= t <= range.value.1
  {
    var t0, t1 := 0.0, 1.0;
    for i := 0 to |checks|
      invariant 0.0 <= t0 <= t1 <= 1.0
      invariant forall t :: PassFirst(checks, i, t) <==> t0 <= t <= t1
    {
      var c := checks[i];
      ghost var next := i + 1;
      assert forall t :: PassFirst(checks, next, t) <==> PassFirst(checks, i, t) && Passes(c, t);
      if c.p == 0.0 {
        forall t ensures Passes(c, t) <==> 0.0 <= c.q { assert c.p * t == 0.0; }
        if c.q < 0.0 {
          NothingPasses(checks, next);
          return None;
        }
        continue;
      }
      var r := c.q / c.p;
      if c.p < 0.0 {
        forall t ensures Passes(c, t) <==> r <= t { PassesFrom(c, t); }
        if r > t1 {
          NothingPasses(checks, next);
          return None;
        }
        if r > t0 {
          t0 := r;
        }
      } else {
        forall t ensures Passes(c, t) <==> t <= r { PassesTo(c, t); }
        if r < t0 {
          NothingPasses(checks, next);
          return None;
        }
        if r < t1 {
          t1 := r;
        }
      }
    }
    return Some((t0, t1));
  }

  lemma NothingPasses(checks: seq<Check>, n: nat)
    requires n <= |checks| && forall t :: !PassFirst(checks, n, t)
    ensures forall t :: !PassFirst(checks, |checks|, t)
  {
    forall t
      ensures !PassFirst(checks, |checks|, t)
    {
      assert !PassFirst(checks, n, t);
    }
  }

  /** The points of `a` to `b` between fractions `t0` and `t1` are the segment between their ends. */
  lemma PartIsSegment(a: Point, b: Point, t0: real, t1: real, p: Point)
    requires 0.0 <= t0 <= t1 <= 1.0
    ensures OnSegment(p, At(a, b, t0), At(a, b, t1)) <==> exists t :: t0 <= t <= t1 && p == At(a, b, t)
  {
    var c, d := At(a, b, t0), At(a, b, t1);
    if OnSegment(p, c, d) {
      var s :| 0.0 <= s <= 1.0 && p == At(c, d, s);
      PartAt(a, b, t0, t1, s);
    }
    if t :| t0 <= t <= t1 && p == At(a, b, t) {
      if t0 == t1 {
        PartAt(a, b, t0, t1, 0.0);
        assert p == At(c, d, 0.0);
      } else {
        var s := FractionOf(t0, t1, t);
        PartAt(a, b, t0, t1, s);
        assert p == At(c, d, s);
      }
    }
  }

  lemma FractionOf(t0: real, t1: real, t: real) returns (s: real)
    requires t0 <= t <= t1 && t0 < t1
    ensures 0.0 <= s <= 1.0 && Mix(t0, t1, s) == t
  {
    s := (t - t0) / (t1 - t0);
    assert s * (t1 - t0) == t - t0;
  }

  lemma PartAt(a: Point, b: Point, t0: real, t1: real, s: real)
    ensures At(At(a, b, t0), At(a, b, t1), s) == At(a, b, Mix(t0, t1, s))
    ensures 0.0 <= s <= 1.0 && t0 <= t1 ==> t0 <= Mix(t0, t1, s) <= t1
  {
    MixOfMix(a.x, b.x, t0, t1, s);
    MixOfMix(a.y, b.y, t0, t1, s);
    if 0.0 <= s <= 1.0 && t0 <= t1 {
      MixBetween(t0, t1, s);
    }
  }

  lemma MixOfMix(a: real, b: real, t0: real, t1: real, s: real)
    ensures Mix(Mix(a, b, t0), Mix(a, b, t1), s) == Mix(a, b, Mix(t0, t1, s))
  {
    PartOfDistance(b - a, t0, t1, s);
  }

  lemma MixBetween(a: real, b: real, s: real)
    requires 0.0 <= s <= 1.0 && a <= b
    ensures a <= Mix(a, b, s) <= b
  {
    ProductSign(s, b - a);
    ProductSign(1.0 - s, b - a);
  }

  lemma ProductSign(x: real, y: real)
    requires 0.0 <= x && 0.0 <= y
    ensures 0.0 <= x * y
  {
  }

  lemma PartOfDistance(d: real, t0: real, t1: real, s: real)
    ensures t0 * d + s * (t1 * d - t0 * d) == (t0 + s * (t1 - t0)) * d
  {
  }

  /** The fractions of the segment inside the window are those from `t0` to `t1`. */
  ghost predicate PartInside(a: Point, b: Point, w: Window, t0: real, t1: real) {
    && 0.0 <= t0 <= t1 <= 1.0
    && forall t :: 0.0 <= t <= 1.0 ==> (InWindow(At(a, b, t), w) <==> t0 <= t <= t1)
  }

  lemma NarrowedIsInside(a: Point, b: Point, w: Window, t0: real, t1: real)
    requires 0.0 <= t0 <= t1 <= 1.0
    requires forall t :: PassFirst(Checks(a, b, w), 4, t) <==> t0 <= t <= t1
    ensures PartInside(a, b, w, t0, t1)
  {
    forall t | 0.0 <= t <= 1.0
      ensures InWindow(At(a, b, t), w) <==> t0 <= t <= t1
    {
      ChecksAreWindow(a, b, w, t);
      assert PassFirst(Checks(a, b, w), 4, t) <==> t0 <= t <= t1;
    }
  }

  lemma NothingInside(a: Point, b: Point, w: Window, p: Point)
    requires forall t :: !PassFirst(Checks(a, b, w), 4, t)
    ensures !(OnSegment(p, a, b) && InWindow(p, w))
  {
    if OnSegment(p, a, b) {
      var t :| 0.0 <= t <= 1.0 && p == At(a, b, t);
      ChecksAreWindow(a, b, w, t);
      assert !PassFirst(Checks(a, b, w), 4, t);
    }
  }

  /** A point of the segment is inside exactly when it lies between the two ends of the part inside. */
  lemma InsideIsPart(a: Point, b: Point, w: Window, t0: real, t1: real, p: Point)
    requires PartInside(a, b, w, t0, t1)
    ensures OnSegment(p, At(a, b, t0), At(a, b, t1)) <==> OnSegment(p, a, b) && InWindow(p, w)
  {
    PartIsSegment(a, b, t0, t1, p);
  }

  /** The two ends of the part inside, or nothing when no point of the segment is inside. */
  method ClipSegment(a: Point, b: Point, w: Window) returns (r: Option<(Point, Point)>, ghost t0: real, ghost t1: real)
    ensures r.None? <==> forall p :: !(OnSegment(p, a, b) && InWindow(p, w))
    ensures r.Some? ==> PartInside(a, b, w, t0, t1) && r.value == (At(a, b, t0), At(a, b, t1))
    ensures r.Some? ==> forall p :: OnSegment(p, r.value.0, r.value.1) <==> OnSegment(p, a, b) && InWindow(p, w)
  {
    var checks := Checks(a, b, w);
    var range := Narrow(checks);
    t0, t1 := 0.0, 0.0;
    if range.None? {
      forall p ensures !(OnSegment(p, a, b) && InWindow(p, w)) { NothingInside(a, b, w, p); }
      return None, t0, t1;
    }
    var (from, to) := range.value;
    t0, t1 := from, to;
    NarrowedIsInside(a, b, w, t0, t1);
    forall p
      ensures OnSegment(p, At(a, b, t0), At(a, b, t1)) <==> OnSegment(p, a, b) && InWindow(p, w)
    {
      InsideIsPart(a, b, w, t0, t1, p);
    }
    r := Some((At(a, b, from), At(a, b, to)));
    assert OnSegment(At(a, b, t0), a, b) && InWindow(At(a, b, t0), w);
  }

  // ---------------------------------------------------------------------
  // Polylines
  // ---------------------------------------------------------------------

  const TOLERANCE := 0.000000001

  predicate Close(p: Point, q: Point) {
    Abs(p.x - q.x) < TOLERANCE && Abs(p.y - q.y) < TOLERANCE
  }

  ghost predicate OnPiece(p: Point, line: seq<Point>, i: int) {
    0 <= i < |line| - 1 && OnSegment(p, line[i], line[i + 1])
  }

  ghost predicate OnLine(p: Point, line: seq<Point>) {
    exists i :: OnPiece(p, line, i)
  }

  ghost predicate OnRun(p: Point, runs: seq<seq<Point>>, k: int) {
    0 <= k < |runs| && OnLine(p, runs[k])
  }

  ghost predicate OnRuns(p: Point, runs: seq<seq<Point>>) {
    exists k :: OnRun(p, runs, k)
  }

  ghost predicate NearRuns(p: Point, runs: seq<seq<Point>>) {
    exists q :: OnRuns(q, runs) && Close(p, q)
  }

  /** Some point of the line inside the window is close to `q`. */
  ghost predicate NearInside(q: Point, line: seq<Point>, w: Window) {
    exists p :: OnLine(p, line) && InWindow(p, w) && Close(q, p)
  }

  /** Runs have at least two points, all of them in the window. */
  ghost predicate Proper(runs: seq<seq<Point>>, w: Window) {
    && (forall k :: 0 <= k < |runs| ==> |runs[k]| >= 2)
    && (forall k, i :: 0 <= k < |runs| && 0 <= i < |runs[k]| ==> InWindow(runs[k][i], w))
  }

  /** What is inside is near a run, and what is on a run is near something inside. */
  ghost predicate Traces(line: seq<Point>, w: Window, runs: seq<seq<Point>>) {
    && (forall p :: OnLine(p, line) && InWindow(p, w) ==> NearRuns(p, runs))
    && (forall q :: OnRuns(q, runs) ==> NearInside(q, line, w))
  }

  /** The finished runs with the one still growing. */
  function All(out: seq<seq<Point>>, run: seq<Point>): seq<seq<Point>> {
    if run == [] then out else out + [run]
  }

  lemma LineGrows(line: seq<Point>, b: Point, p: Point)
    requires line != []
    ensures OnLine(p, line + [b]) <==> OnLine(p, line) || OnSegment(p, line[|line| - 1], b)
  {
    var more := line + [b];
    if i :| OnPiece(p, more, i) {
      assert i < |line| - 1 ==> OnPiece(p, line, i);
    }
    if i :| OnPiece(p, line, i) {
      assert OnPiece(p, more, i);
    }
    if OnSegment(p, line[|line| - 1], b) {
      assert OnPiece(p, more, |line| - 1);
    }
  }

  lemma RunsGrow(out: seq<seq<Point>>, run: seq<Point>, b: Point, p: Point)
    requires run != []
    ensures OnRuns(p, out + [run + [b]]) <==> OnRuns(p, out + [run]) || OnSegment(p, run[|run| - 1], b)
  {
    LineGrows(run, b, p);
    OneMoreRun(out, run, p);
    OneMoreRun(out, run + [b], p);
  }

  lemma OneMoreRun(out: seq<seq<Point>>, run: seq<Point>, p: Point)
    ensures OnRuns(p, out + [run]) <==> OnRuns(p, out) || OnLine(p, run)
  {
    if k :| OnRun(p, out + [run], k) {
      assert k < |out| ==> OnRun(p, out, k);
    }
    if k :| OnRun(p, out, k) {
      assert OnRun(p, out + [run], k);
    }
    if OnLine(p, run) {
      assert OnRun(p, out + [run], |out|);
    }
  }

  lemma OnPair(a: Point, b: Point, p: Point)
    ensures OnLine(p, [a, b]) <==> OnSegment(p, a, b)
  {
    if OnSegment(p, a, b) {
      assert OnPiece(p, [a, b], 0);
    }
  }

  /** Moving the first end of a segment a little moves every point of it a little. */
  lemma SegmentMoves(a: Point, c: Point, b: Point, p: Point) returns (q: Point)
    requires Close(a, c) && OnSegment(p, a, b)
    ensures OnSegment(q, c, b) && Close(p, q)
  {
    var t :| 0.0 <= t <= 1.0 && p == At(a, b, t);
    q := At(c, b, t);
    MixMoves(a.x, c.x, b.x, t);
    MixMoves(a.y, c.y, b.y, t);
  }

  lemma MixMoves(a: real, c: real, b: real, t: real)
    requires 0.0 <= t <= 1.0 && Abs(a - c) < TOLERANCE
    ensures Abs(Mix(a, b, t) - Mix(c, b, t)) < TOLERANCE
  {
    MixApart(a, c, b, t);
    Shrinks(t, a - c, Mix(a, b, t) - Mix(c, b, t));
  }

  lemma MixApart(a: real, c: real, b: real, t: real)
    ensures Mix(a, b, t) - Mix(c, b, t) == (a - c) - t * (a - c)
  {
    Scales(t, b, a);
    Scales(t, b, c);
    Scales(t, a, c);
  }

  lemma Scales(t: real, a: real, b: real)
    ensures t * (a - b) == t * a - t * b
  {
  }

  lemma Shrinks(t: real, d: real, rest: real)
    requires 0.0 <= t <= 1.0 && rest == d - t * d
    ensures Abs(rest) <= Abs(d)
  {
    var e := Abs(d);
    ProductSign(t, e);
    ProductSign(1.0 - t, e);
    assert (1.0 - t) * e == e - t * e;
    assert d < 0.0 ==> t * e == -(t * d);
  }

  /** A segment that misses the window leaves the runs as they are. */
  lemma MissTraces(line: seq<Point>, next: Point, w: Window, runs: seq<seq<Point>>)
    requires line != [] && Traces(line, w, runs)
    requires forall p :: !(OnSegment(p, line[|line| - 1], next) && InWindow(p, w))
    ensures Traces(line + [next], w, runs)
  {
    forall p | OnLine(p, line + [next]) && InWindow(p, w)
      ensures NearRuns(p, runs)
    {
      LineGrows(line, next, p);
    }
    forall q | OnRuns(q, runs)
      ensures NearInside(q, line + [next], w)
    {
      var p :| OnLine(p, line) && InWindow(p, w) && Close(q, p);
      LineGrows(line, next, p);
    }
  }

  /** A segment whose part inside runs from `a` to `b` is traced by a piece from `c`, close to `a`, to `b`. */
  lemma HitTraces(line: seq<Point>, next: Point, w: Window, runs: seq<seq<Point>>, more: seq<seq<Point>>,
                  a: Point, b: Point, c: Point)
    requires line != [] && Traces(line, w, runs) && Close(a, c) && Close(c, a)
    requires forall p :: OnSegment(p, a, b) <==> OnSegment(p, line[|line| - 1], next) && InWindow(p, w)
    requires forall q :: OnRuns(q, more) <==> OnRuns(q, runs) || OnSegment(q, c, b)
    ensures Traces(line + [next], w, more)
  {
    forall p | OnLine(p, line + [next]) && InWindow(p, w)
      ensures NearRuns(p, more)
    {
      LineGrows(line, next, p);
      if OnLine(p, line) {
        assert NearRuns(p, runs);
        var q :| OnRuns(q, runs) && Close(p, q);
        assert OnRuns(q, more);
      } else {
        var q := SegmentMoves(a, c, b, p);
        assert OnRuns(q, more);
      }
    }
    forall q | OnRuns(q, more)
      ensures NearInside(q, line + [next], w)
    {
      if OnRuns(q, runs) {
        var p :| OnLine(p, line) && InWindow(p, w) && Close(q, p);
        LineGrows(line, next, p);
      } else {
        var p := SegmentMoves(c, a, b, q);
        LineGrows(line, next, p);
      }
    }
  }

  lemma MixInRange(low: real, high: real, a: real, b: real, t: real)
    requires 0.0 <= t <= 1.0 && low <= a <= high && low <= b <= high
    ensures low <= Mix(a, b, t) <= high
  {
    if a <= b {
      MixBetween(a, b, t);
    } else {
      MixBetween(b, a, 1.0 - t);
      assert Mix(b, a, 1.0 - t) == Mix(a, b, t);
    }
  }

  /** Every point of every run lies in the window. */
  lemma RunsStayInside(runs: seq<seq<Point>>, w: Window, q: Point)
    requires Proper(runs, w) && OnRuns(q, runs)
    ensures InWindow(q, w)
  {
    var k :| OnRun(q, runs, k);
    var i :| OnPiece(q, runs[k], i);
    var a, b := runs[k][i], runs[k][i + 1];
    var t :| 0.0 <= t <= 1.0 && q == At(a, b, t);
    MixInRange(w.lonMin, w.lonMax, a.x, b.x, t);
    MixInRange(w.latMin, w.latMax, a.y, b.y, t);
  }

  lemma EndsInside(a: Point, b: Point, w: Window, t0: real, t1: real)
    requires PartInside(a, b, w, t0, t1)
    ensures InWindow(At(a, b, t0), w) && InWindow(At(a, b, t1), w)
    ensures InWindow(a, w) && InWindow(b, w) ==> At(a, b, t0) == a && At(a, b, t1) == b
  {
    assert At(a, b, 0.0) == a && At(a, b, 1.0) == b;
  }

  ghost predicate AllInside(line: seq<Point>, w: Window) {
    forall i :: 0 <= i < |line| ==> InWindow(line[i], w)
  }

  lemma ProperGrows(out: seq<seq<Point>>, run: seq<Point>, w: Window)
    ensures Proper(out + [run], w) <==> Proper(out, w) && |run| >= 2 && forall i :: 0 <= i < |run| ==> InWindow(run[i], w)
  {
    var more := out + [run];
    assert more[|out|] == run && forall k :: 0 <= k < |out| ==> more[k] == out[k];
  }

  lemma StartsRun(line: seq<Point>, next: Point, w: Window, runs: seq<seq<Point>>, a: Point, b: Point)
    requires line != [] && Traces(line, w, runs)
    requires forall p :: OnSegment(p, a, b) <==> OnSegment(p, line[|line| - 1], next) && InWindow(p, w)
    ensures Traces(line + [next], w, runs + [[a, b]])
  {
    forall q
      ensures OnRuns(q, runs + [[a, b]]) <==> OnRuns(q, runs) || OnSegment(q, a, b)
    {
      OneMoreRun(runs, [a, b], q);
      OnPair(a, b, q);
    }
    HitTraces(line, next, w, runs, runs + [[a, b]], a, b, a);
  }

  lemma ExtendsRun(line: seq<Point>, next: Point, w: Window, out: seq<seq<Point>>, run: seq<Point>, a: Point, b: Point)
    requires line != [] && Traces(line, w, out + [run]) && run != [] && Close(run[|run| - 1], a)
    requires forall p :: OnSegment(p, a, b) <==> OnSegment(p, line[|line| - 1], next) && InWindow(p, w)
    ensures Traces(line + [next], w, out + [run + [b]])
  {
    forall q
      ensures OnRuns(q, out + [run + [b]]) <==> OnRuns(q, out + [run]) || OnSegment(q, run[|run| - 1], b)
    {
      RunsGrow(out, run, b, q);
    }
    HitTraces(line, next, w, out + [run], out + [run + [b]], a, b, run[|run| - 1]);
  }

  ghost predicate Clipped(line: seq<Point>, w: Window, out: seq<seq<Point>>, run: seq<Point>) {
    && (run == [] || |run| >= 2)
    && Proper(All(out, run), w) && Traces(line, w, All(out, run))
  }

  lemma MissClips(line: seq<Point>, next: Point, w: Window, out: seq<seq<Point>>, run: seq<Point>)
    requires line != [] && Clipped(line, w, out, run)
    requires forall p :: !(OnSegment(p, line[|line| - 1], next) && InWindow(p, w))
    ensures Clipped(line + [next], w, All(out, run), [])
  {
    MissTraces(line, next, w, All(out, run));
  }

  lemma NothingOnPoint(line: seq<Point>, w: Window)
    requires |line| <= 1
    ensures Traces(line, w, [])
  {
  }

  lemma MissMeansOutside(a: Point, b: Point, w: Window)
    requires forall p :: !(OnSegment(p, a, b) && InWindow(p, w))
    ensures !InWindow(a, w)
  {
    assert At(a, b, 0.0) == a;
    assert OnSegment(a, a, b);
  }

  /** The part inside of the next segment joins the growing run, or starts a new one. */
  method AddPart(ghost line: seq<Point>, ghost next: Point, ghost w: Window, out: seq<seq<Point>>, run: seq<Point>,
                 a: Point, b: Point)
    returns (out': seq<seq<Point>>, run': seq<Point>)
    requires line != [] && Clipped(line, w, out, run) && InWindow(a, w) && InWindow(b, w)
    requires forall p :: OnSegment(p, a, b) <==> OnSegment(p, line[|line| - 1], next) && InWindow(p, w)
    ensures Clipped(line + [next], w, out', run')
    ensures run == [] ==> out' == out && run' == [a, b]
    ensures run != [] && Close(run[|run| - 1], a) ==> out' == out && run' == run + [b]
    ensures run != [] && !Close(run[|run| - 1], a) ==> out' == out + [run] && run' == [a, b]
  {
    if run == [] {
      StartsRun(line, next, w, out, a, b);
      ProperGrows(out, [a, b], w);
      out', run' := out, [a, b];
    } else if Close(run[|run| - 1], a) {
      ExtendsRun(line, next, w, out, run, a, b);
      ProperGrows(out, run, w);
      ProperGrows(out, run + [b], w);
      out', run' := out, run + [b];
    } else {
      StartsRun(line, next, w, out + [run], a, b);
      ProperGrows(out + [run], [a, b], w);
      out', run' := out, run;
      if |run| > 1 {
        out' := out + [run];
      }
      run' := [a, b];
    }
  }

  // ---------------------------------------------------------------------
  // Where runs split
  // ---------------------------------------------------------------------

  /** A segment of the line that meets the window, with the ends of its part inside. */
  datatype Hit = Hit(segment: nat, a: Point, b: Point)

  /** The part of a segment inside the window runs from `c` to `d`. */
  ghost predicate IsPart(a: Point, b: Point, w: Window, c: Point, d: Point) {
    exists t0, t1 :: PartInside(a, b, w, t0, t1) && c == At(a, b, t0) && d == At(a, b, t1)
  }

  ghost predicate IsHit(line: seq<Point>, w: Window, h: Hit) {
    h.segment + 1 < |line| && IsPart(line[h.segment], line[h.segment + 1], w, h.a, h.b)
  }

  ghost predicate Misses(line: seq<Point>, w: Window, i: nat) {
    i + 1 < |line| ==> forall p :: !(OnSegment(p, line[i], line[i + 1]) && InWindow(p, w))
  }

  /** The hits among the first `n` segments, in order; every other one of them misses the window. */
  ghost predicate AreHits(line: seq<Point>, w: Window, n: nat, hits: seq<Hit>) {
    && (forall j :: 0 <= j < |hits| ==> hits[j].segment < n && IsHit(line, w, hits[j]))
    && (forall j, k :: 0 <= j < k < |hits| ==> hits[j].segment < hits[k].segment)
    && (forall i: nat :: i < n && !Misses(line, w, i) ==> exists j :: 0 <= j < |hits| && hits[j].segment == i)
  }

  /** The line stays inside from one hit to the next: neighbouring segments whose parts meet, up to the tolerance. */
  ghost predicate Continues(prev: Hit, next: Hit) {
    prev.segment + 1 == next.segment && Close(prev.b, next.a)
  }

  /** Hit `j` goes on with the stretch of the one before. */
  ghost predicate GoesOn(hits: seq<Hit>, j: int) {
    0 < j < |hits| && Continues(hits[j - 1], hits[j])
  }

  /** One unbroken stretch, the hits from `lo` up to `hi`: the start of the first, then the end of each. */
  ghost predicate IsRun(hits: seq<Hit>, lo: nat, hi: nat, run: seq<Point>) {
    && lo < hi <= |hits| && |run| == hi - lo + 1 && run[0] == hits[lo].a
    && (forall j :: lo <= j < hi ==> run[j - lo + 1] == hits[j].b)
    && (forall j :: lo < j < hi ==> GoesOn(hits, j))
  }

  /**
   Run `k` takes the hits from `cuts[k]` to `cuts[k + 1]`; the stretch is broken at every
   cut between, and nowhere else.
   */
  ghost predicate IsSplit(hits: seq<Hit>, cuts: seq<nat>, runs: seq<seq<Point>>) {
    && |cuts| == |runs| + 1 && cuts[0] == 0 && cuts[|runs|] == |hits|
    && (forall k :: 0 <= k < |runs| ==> IsRun(hits, cuts[k], cuts[k + 1], runs[k]))
    && (forall k :: 0 < k < |runs| ==> !GoesOn(hits, cuts[k]))
  }

  ghost predicate IsSplitting(hits: seq<Hit>, runs: seq<seq<Point>>) {
    exists cuts: seq<nat> :: IsSplit(hits, cuts, runs)
  }

  ghost predicate SplitsWhereLeft(line: seq<Point>, w: Window, runs: seq<seq<Point>>) {
    exists hits: seq<Hit> :: AreHits(line, w, |line|, hits) && IsSplitting(hits, runs)
  }

  lemma HitKeeps(hits: seq<Hit>, h: Hit, j: int)
    requires j < |hits|
    ensures GoesOn(hits + [h], j) <==> GoesOn(hits, j)
  {
  }

  lemma RunKeeps(hits: seq<Hit>, h: Hit, lo: nat, hi: nat, run: seq<Point>)
    requires IsRun(hits, lo, hi, run)
    ensures IsRun(hits + [h], lo, hi, run)
  {
    forall j | lo < j < hi
      ensures GoesOn(hits + [h], j)
    {
      HitKeeps(hits, h, j);
    }
  }

  lemma RunGrows(hits: seq<Hit>, h: Hit, lo: nat, run: seq<Point>)
    requires IsRun(hits, lo, |hits|, run) && Continues(hits[|hits| - 1], h)
    ensures IsRun(hits + [h], lo, |hits| + 1, run + [h.b])
  {
    RunKeeps(hits, h, lo, |hits|, run);
  }

  /** The cuts of the earlier runs stay broken when a hit is added. */
  lemma CutsKeep(hits: seq<Hit>, cuts: seq<nat>, runs: seq<seq<Point>>, h: Hit, k: nat)
    requires IsSplit(hits, cuts, runs) && k < |runs|
    ensures IsRun(hits + [h], cuts[k], cuts[k + 1], runs[k])
    ensures k > 0 ==> !GoesOn(hits + [h], cuts[k])
  {
    RunKeeps(hits, h, cuts[k], cuts[k + 1], runs[k]);
    HitKeeps(hits, h, cuts[k]);
  }

  lemma SplitContinues(hits: seq<Hit>, cuts: seq<nat>, out: seq<seq<Point>>, run: seq<Point>, h: Hit)
    requires hits != [] && IsSplit(hits, cuts, out + [run]) && Continues(hits[|hits| - 1], h)
    ensures IsSplit(hits + [h], cuts[..|out| + 1] + [|hits| + 1], out + [run + [h.b]])
  {
    var last, runs := |out|, out + [run];
    forall k: nat | k < |runs|
      ensures IsRun(hits + [h], cuts[k], cuts[k + 1], runs[k]) && (k > 0 ==> !GoesOn(hits + [h], cuts[k]))
    {
      CutsKeep(hits, cuts, runs, h, k);
    }
    assert forall k :: 0 <= k < last ==> runs[k] == out[k];
    assert runs[last] == run;
    RunGrows(hits, h, cuts[last], run);
  }

  lemma SplitBreaks(hits: seq<Hit>, cuts: seq<nat>, runs: seq<seq<Point>>, h: Hit)
    requires IsSplit(hits, cuts, runs) && (hits == [] || !Continues(hits[|hits| - 1], h))
    ensures IsSplit(hits + [h], cuts + [|hits| + 1], runs + [[h.a, h.b]])
  {
    forall k: nat | k < |runs|
      ensures IsRun(hits + [h], cuts[k], cuts[k + 1], runs[k]) && (k > 0 ==> !GoesOn(hits + [h], cuts[k]))
    {
      CutsKeep(hits, cuts, runs, h, k);
    }
    assert IsRun(hits + [h], |hits|, |hits| + 1, [h.a, h.b]);
  }

  /** The runs after a hit: the last one grows if the line stayed inside, otherwise one more begins. */
  lemma HitSplits(hits: seq<Hit>, out: seq<seq<Point>>, run: seq<Point>, out': seq<seq<Point>>, run': seq<Point>, h: Hit)
    requires IsSplitting(hits, All(out, run))
    requires run != [] <==> hits != [] && hits[|hits| - 1].segment + 1 == h.segment
    requires run != [] ==> run[|run| - 1] == hits[|hits| - 1].b
    requires hits != [] ==> hits[|hits| - 1].segment < h.segment
    requires if run != [] && Close(run[|run| - 1], h.a) then out' == out && run' == run + [h.b]
             else out' == All(out, run) && run' == [h.a, h.b]
    ensures IsSplitting(hits + [h], All(out', run'))
  {
    var cuts: seq<nat> :| IsSplit(hits, cuts, All(out, run));
    if run != [] && Close(run[|run| - 1], h.a) {
      SplitContinues(hits, cuts, out, run, h);
      assert IsSplit(hits + [h], cuts[..|out| + 1] + [|hits| + 1], All(out', run'));
    } else {
      SplitBreaks(hits, cuts, All(out, run), h);
      assert IsSplit(hits + [h], cuts + [|hits| + 1], All(out', run'));
    }
  }

  lemma HitIsNext(line: seq<Point>, w: Window, i: nat, hits: seq<Hit>, h: Hit)
    requires AreHits(line, w, i, hits) && h.segment == i && IsHit(line, w, h)
    ensures AreHits(line, w, i + 1, hits + [h])
  {
    var more := hits + [h];
    forall k: nat | k < i + 1 && !Misses(line, w, k)
      ensures exists j :: 0 <= j < |more| && more[j].segment == k
    {
      if k < i {
        var j :| 0 <= j < |hits| && hits[j].segment == k;
        assert more[j].segment == k;
      } else {
        assert more[|hits|].segment == k;
      }
    }
  }

  /** The runs hold every hit up to segment `i`, the growing one empty exactly when the segment before missed. */
  ghost predicate Split(line: seq<Point>, w: Window, i: nat, hits: seq<Hit>, out: seq<seq<Point>>, run: seq<Point>) {
    && AreHits(line, w, i, hits) && IsSplitting(hits, All(out, run))
    && (run != [] <==> hits != [] && hits[|hits| - 1].segment + 1 == i)
    && (run != [] ==> run[|run| - 1] == hits[|hits| - 1].b)
  }

  lemma NothingSplit(line: seq<Point>, w: Window)
    ensures Split(line, w, 0, [], [], [])
  {
    assert IsSplit([], [0], []);
  }

  lemma MissSplits(line: seq<Point>, w: Window, i: nat, hits: seq<Hit>, out: seq<seq<Point>>, run: seq<Point>)
    requires Split(line, w, i, hits, out, run) && Misses(line, w, i)
    ensures Split(line, w, i + 1, hits, All(out, run), [])
  {
  }

  lemma NextHitSplits(line: seq<Point>, w: Window, i: nat, hits: seq<Hit>, out: seq<seq<Point>>, run: seq<Point>,
                      out': seq<seq<Point>>, run': seq<Point>, h: Hit)
    requires Split(line, w, i, hits, out, run) && h.segment == i && IsHit(line, w, h)
    requires if run != [] && Close(run[|run| - 1], h.a) then out' == out && run' == run + [h.b]
             else out' == All(out, run) && run' == [h.a, h.b]
    ensures Split(line, w, i + 1, hits + [h], out', run')
  {
    HitSplits(hits, out, run, out', run', h);
    HitIsNext(line, w, i, hits, h);
  }

  lemma AllSplit(line: seq<Point>, w: Window, i: nat, hits: seq<Hit>, out: seq<seq<Point>>, run: seq<Point>)
    requires Split(line, w, i, hits, out, run) && |line| <= i + 1 && i <= |line|
    ensures SplitsWhereLeft(line, w, All(out, run))
  {
    assert AreHits(line, w, |line|, hits);
  }

  lemma {:induction false} HitsAscend(line: seq<Point>, w: Window, hits: seq<Hit>, j: nat)
    requires AreHits(line, w, |line|, hits) && j < |hits|
    ensures hits[j].segment >= j
  {
    if j > 0 {
      HitsAscend(line, w, hits, j - 1);
    }
  }

  lemma InsideMeets(line: seq<Point>, w: Window, i: nat)
    requires AllInside(line, w) && i + 1 < |line|
    ensures !Misses(line, w, i)
  {
    if Misses(line, w, i) {
      MissMeansOutside(line[i], line[i + 1], w);
    }
  }

  lemma InsideIsWhole(line: seq<Point>, w: Window, h: Hit)
    requires AllInside(line, w) && IsHit(line, w, h)
    ensures h == Hit(h.segment, line[h.segment], line[h.segment + 1])
  {
    var a, b := line[h.segment], line[h.segment + 1];
    var t0, t1 :| PartInside(a, b, w, t0, t1) && h.a == At(a, b, t0) && h.b == At(a, b, t1);
    EndsInside(a, b, w, t0, t1);
  }

  /** On a line wholly inside, hit number `j` is segment `j`, whole. */
  lemma {:induction false} AllHit(line: seq<Point>, w: Window, hits: seq<Hit>, j: nat)
    requires AreHits(line, w, |line|, hits) && AllInside(line, w) && j + 1 < |line|
    ensures j < |hits| && hits[j] == Hit(j, line[j], line[j + 1])
  {
    if j > 0 {
      AllHit(line, w, hits, j - 1);
    }
    InsideMeets(line, w, j);
    var k :| 0 <= k < |hits| && hits[k].segment == j;
    HitsAscend(line, w, hits, k);
    assert k == j;
    InsideIsWhole(line, w, hits[j]);
  }

  lemma NoMoreHits(line: seq<Point>, w: Window, hits: seq<Hit>)
    requires AreHits(line, w, |line|, hits) && |line| >= 2
    ensures |hits| < |line|
  {
    if hits != [] {
      HitsAscend(line, w, hits, |hits| - 1);
      assert IsHit(line, w, hits[|hits| - 1]);
    }
  }

  lemma SecondRunBreaks(hits: seq<Hit>, cuts: seq<nat>, runs: seq<seq<Point>>)
    requires IsSplit(hits, cuts, runs) && |runs| > 1
    ensures 0 < cuts[1] < |hits| && !GoesOn(hits, cuts[1])
  {
    assert IsRun(hits, cuts[0], cuts[1], runs[0]) && IsRun(hits, cuts[1], cuts[2], runs[1]);
  }

  lemma OneRun(hits: seq<Hit>, cuts: seq<nat>, runs: seq<seq<Point>>)
    requires hits != [] && IsSplit(hits, cuts, runs) && forall j :: 0 < j < |hits| ==> GoesOn(hits, j)
    ensures |runs| == 1 && IsRun(hits, 0, |hits|, runs[0])
  {
    if |runs| > 1 {
      SecondRunBreaks(hits, cuts, runs);
      assert false;
    }
  }

  lemma RunIsLine(line: seq<Point>, w: Window, hits: seq<Hit>, run: seq<Point>)
    requires AreHits(line, w, |line|, hits) && AllInside(line, w) && |line| >= 2
    requires |hits| + 1 == |line| && IsRun(hits, 0, |hits|, run)
    ensures run == line
  {
    forall j | 0 <= j < |line|
      ensures run[j] == line[j]
    {
      if j > 0 {
        AllHit(line, w, hits, j - 1);
        assert run[j - 1 - 0 + 1] == hits[j - 1].b;
      } else {
        AllHit(line, w, hits, 0);
      }
    }
  }

  /** A line wholly inside is never split, and comes back whole. */
  lemma {:induction false} WholeLineInside(line: seq<Point>, w: Window, runs: seq<seq<Point>>)
    requires SplitsWhereLeft(line, w, runs) && AllInside(line, w) && |line| >= 2
    ensures runs == [line]
  {
    var hits: seq<Hit> :| AreHits(line, w, |line|, hits) && IsSplitting(hits, runs);
    var cuts: seq<nat> :| IsSplit(hits, cuts, runs);
    NoMoreHits(line, w, hits);
    AllHit(line, w, hits, |line| - 2);
    forall j | 0 < j < |hits|
      ensures GoesOn(hits, j)
    {
      AllHit(line, w, hits, j - 1);
      AllHit(line, w, hits, j);
    }
    OneRun(hits, cuts, runs);
    RunIsLine(line, w, hits, runs[0]);
  }

  /** The line up to its point `i`. */
  ghost function UpTo(line: seq<Point>, i: nat): seq<Point> {
    if i < |line| then line[..i + 1] else line
  }

  lemma UpToNext(line: seq<Point>, i: nat)
    requires i + 1 < |line|
    ensures UpTo(line, i) != [] && UpTo(line, i)[|UpTo(line, i)| - 1] == line[i]
    ensures UpTo(line, i) + [line[i + 1]] == UpTo(line, i + 1)
  {
  }

  lemma EndsWell(line: seq<Point>, w: Window, runs: seq<seq<Point>>)
    requires Proper(runs, w) && SplitsWhereLeft(line, w, runs)
    ensures forall q :: OnRuns(q, runs) ==> InWindow(q, w)
    ensures |line| >= 2 && AllInside(line, w) ==> runs == [line]
  {
    forall q | OnRuns(q, runs)
      ensures InWindow(q, w)
    {
      RunsStayInside(runs, w, q);
    }
    if |line| >= 2 && AllInside(line, w) {
      WholeLineInside(line, w, runs);
    }
  }

  /** Splits the line into runs wherever it leaves the window and returns. */
  method ClipPolyline(line: seq<Point>, w: Window) returns (out: seq<seq<Point>>)
    ensures Proper(out, w) && Traces(line, w, out)
    ensures SplitsWhereLeft(line, w, out)
    ensures forall q :: OnRuns(q, out) ==> InWindow(q, w)
    ensures |line| >= 2 && AllInside(line, w) ==> out == [line]
  {
    out := [];
    var run: seq<Point> := [];
    var i := 0;
    ghost var hits: seq<Hit> := [];
    NothingOnPoint(UpTo(line, 0), w);
    NothingSplit(line, w);
    while i < |line| - 1
      invariant i == 0 || 0 < i <= |line| - 1
      invariant Clipped(UpTo(line, i), w, out, run) && Split(line, w, i, hits, out, run)
    {
      var seg, t0, t1 := ClipSegment(line[i], line[i + 1], w);
      ghost var before, next := UpTo(line, i), line[i + 1];
      UpToNext(line, i);
      if seg.None? {
        MissSplits(line, w, i, hits, out, run);
        MissClips(before, next, w, out, run);
        ghost var all := All(out, run);
        if |run| > 1 {
          out := out + [run];
        }
        assert out == all;
        run := [];
      } else {
        EndsInside(line[i], line[i + 1], w, t0, t1);
        ghost var out0, run0, hit := out, run, Hit(i, seg.value.0, seg.value.1);
        out, run := AddPart(before, next, w, out, run, seg.value.0, seg.value.1);
        NextHitSplits(line, w, i, hits, out0, run0, out, run, hit);
        hits := hits + [hit];
      }
      i := i + 1;
      assert UpTo(line, i) == before + [next];
    }
    AllSplit(line, w, i, hits, out, run);
    if |run| > 1 {
      out := out + [run];
    }
    assert UpTo(line, i) == line;
    EndsWell(line, w, out);
  }
}
