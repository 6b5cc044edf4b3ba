/**
 Lanes for the connectors of a graph: intervals of rows, coloured greedily in the
 order of their lower ends. No two intervals that meet share a lane, and there
 are only as many lanes as there are intervals over the most crowded row.
 */
module Lanes {
  import opened Collections
  import opened Sorting

  datatype Edge = Edge(from: int, to: int)

  function Lo(e: Edge): int {
    if e.from <= e.to then e.from else e.to
  }

  function Hi(e: Edge): int {
    if e.from <= e.to then e.to else e.from
  }

  /** The edge passes the row, whichever way it runs. */
  predicate Covers(e: Edge, row: int) {
    e.from <= row <= e.to || e.to <= row <= e.from
  }

  /** The closed row intervals have a row in common. */
  ghost predicate Meet(e: Edge, f: Edge) {
    exists row :: Covers(e, row) && Covers(f, row)
  }

  lemma MeetIffOverlap(e: Edge, f: Edge)
    ensures Meet(e, f) <==> Lo(e) <= Hi(f) && Lo(f) <= Hi(e)
  {
    if Lo(e) <= Hi(f) && Lo(f) <= Hi(e) {
      var row := if Lo(e) <= Lo(f) then Lo(f) else Lo(e);
      assert Covers(e, row) && Covers(f, row);
    }
  }

  /** Edges of one lane never meet. */
  ghost predicate Proper(edges: seq<Edge>, lanes: seq<nat>) {
    && |lanes| == |edges|
    && forall i, j :: 0 <= i < j < |edges| && lanes[i] == lanes[j] ==> !Meet(edges[i], edges[j])
  }

  /** The edges over one row. */
  function Crowd(edges: seq<Edge>, row: int): set<nat> {
    set i: nat | i < |edges| && Covers(edges[i], row)
  }

  /** One more than the largest lane. */
  function LaneCount(lanes: seq<nat>): (count: nat)
    ensures forall i :: 0 <= i < |lanes| ==> lanes[i] < count
    ensures count > 0 ==> count - 1 in lanes
  {
    if lanes == [] then 0
    else
      var rest := LaneCount(lanes[..|lanes| - 1]);
      var last := lanes[|lanes| - 1];
      if last < rest then assert rest - 1 in lanes[..|lanes| - 1]; rest else last + 1
  }

  // ---------------------------------------------------------------------
  // No colouring can do with fewer lanes
  // ---------------------------------------------------------------------

  lemma {:induction false} InjectionFits(s: set<nat>, f: seq<nat>, m: nat)
    requires forall i :: i in s ==> i < |f| && f[i] < m
    requires forall i, j :: i in s && j in s && f[i] == f[j] ==> i == j
    ensures |s| <= m
  {
    if m == 0 {
      if i :| i in s {
        assert false;
      }
    } else if i :| i in s && f[i] == m - 1 {
      InjectionFits(s - {i}, f, m - 1);
    } else {
      InjectionFits(s, f, m - 1);
    }
  }

  /** A proper colouring has a lane for every edge over any one row. */
  lemma {:induction false} CrowdFits(edges: seq<Edge>, lanes: seq<nat>, row: int)
    requires Proper(edges, lanes)
    ensures |Crowd(edges, row)| <= LaneCount(lanes)
  {
    var crowd := Crowd(edges, row);
    forall i, j | i in crowd && j in crowd && lanes[i] == lanes[j]
      ensures i == j
    {
      assert Covers(edges[i], row) && Covers(edges[j], row);
      assert Meet(edges[i], edges[j]) && Meet(edges[j], edges[i]);
    }
    InjectionFits(crowd, lanes, LaneCount(lanes));
  }

  /** A proper colouring with some row as crowded as it has lanes uses the fewest lanes there can be. */
  lemma {:induction false} CrowdedIsOptimal(edges: seq<Edge>, lanes: seq<nat>, row: int, other: seq<nat>)
    requires Proper(edges, lanes) && |Crowd(edges, row)| == LaneCount(lanes) && Proper(edges, other)
    ensures LaneCount(lanes) <= LaneCount(other)
  {
    CrowdFits(edges, other, row);
  }

  // ---------------------------------------------------------------------
  // The greedy colouring
  // ---------------------------------------------------------------------

  function Keys(edges: seq<Edge>): (keys: seq<Key>)
    ensures |keys| == |edges|
    ensures forall i :: 0 <= i < |edges| ==> keys[i] == Key(Lo(edges[i]) as real, Hi(edges[i]) as real)
  {
    if edges == [] then []
    else Keys(edges[..|edges| - 1]) + [Key(Lo(edges[|edges| - 1]) as real, Hi(edges[|edges| - 1]) as real)]
  }

  /** Edges `placed` have been coloured; `ends[h]` is where lane `h` ends and `top[h]` the edge it ends with. */
  ghost predicate Coloured(edges: seq<Edge>, lanes: seq<nat>, placed: seq<nat>, ends: seq<int>, top: seq<nat>) {
    && |lanes| == |edges| && |top| == |ends|
    && (forall k :: 0 <= k < |placed| ==>
          placed[k] < |edges| && lanes[placed[k]] < |ends| && Hi(edges[placed[k]]) <= ends[lanes[placed[k]]])
    && (forall k, m :: 0 <= k < m < |placed| && lanes[placed[k]] == lanes[placed[m]] ==>
          Hi(edges[placed[k]]) < Lo(edges[placed[m]]))
    && (forall h :: 0 <= h < |top| ==> top[h] in placed && lanes[top[h]] == h && Hi(edges[top[h]]) == ends[h])
  }

  /** One edge in each lane, all of them over `row`. */
  ghost predicate Crowded(edges: seq<Edge>, lanes: seq<nat>, placed: seq<nat>, crowd: seq<nat>, row: int) {
    forall h :: 0 <= h < |crowd| ==>
      crowd[h] in placed && crowd[h] < |edges| && crowd[h] < |lanes| && lanes[crowd[h]] == h && Covers(edges[crowd[h]], row)
  }

  ghost predicate Placed(edges: seq<Edge>, lanes: seq<nat>, placed: seq<nat>, ends: seq<int>, top: seq<nat>,
                         crowd: seq<nat>, row: int) {
    Coloured(edges, lanes, placed, ends, top) && Crowded(edges, lanes, placed, crowd, row) && |crowd| == |ends|
  }

  /** The first lane that ends before `lo`. */
  method FirstFree(ends: seq<int>, lo: int) returns (lane: nat)
    ensures lane <= |ends| && (lane < |ends| ==> ends[lane] < lo)
    ensures forall h :: 0 <= h < lane ==> ends[h] >= lo
  {
    lane := 0;
    while lane < |ends| && !(ends[lane] < lo)
      invariant lane <= |ends| && forall h :: 0 <= h < lane ==> ends[h] >= lo
    {
      lane := lane + 1;
    }
  }

  lemma LanesAreProper(edges: seq<Edge>, lanes: seq<nat>, placed: seq<nat>, ends: seq<int>, top: seq<nat>)
    requires Coloured(edges, lanes, placed, ends, top)
    requires forall x: nat :: x < |edges| ==> x in placed
    ensures Proper(edges, lanes)
  {
    forall i, j | 0 <= i < j < |edges| && lanes[i] == lanes[j]
      ensures !Meet(edges[i], edges[j])
    {
      assert i in placed && j in placed;
      var k :| 0 <= k < |placed| && placed[k] == i;
      var m :| 0 <= m < |placed| && placed[m] == j;
      MeetIffOverlap(edges[i], edges[j]);
      assert k < m || m < k;
    }
  }

  /** Every lane was opened over a row that all lanes before it were still needed on. */
  lemma {:induction false} LanesAreNeeded(edges: seq<Edge>, lanes: seq<nat>, placed: seq<nat>, ends: seq<int>,
                                          top: seq<nat>,
                       crowd: seq<nat>, row: int)
    requires Coloured(edges, lanes, placed, ends, top) && Proper(edges, lanes)
    requires forall x: nat :: x < |edges| ==> x in placed
    requires Crowded(edges, lanes, placed, crowd, row) && |crowd| == |ends|
    ensures |Crowd(edges, row)| == LaneCount(lanes)
    ensures forall r :: |Crowd(edges, r)| <= LaneCount(lanes)
  {
    DistinctFits(crowd, Crowd(edges, row));
    forall r
      ensures |Crowd(edges, r)| <= LaneCount(lanes)
    {
      CrowdFits(edges, lanes, r);
    }
    if LaneCount(lanes) > 0 {
      var i :| 0 <= i < |lanes| && lanes[i] == LaneCount(lanes) - 1;
      assert i in placed;
    }
  }

  lemma OpensLane(edges: seq<Edge>, lanes: seq<nat>, placed: seq<nat>, ends: seq<int>, top: seq<nat>, i: nat)
    requires Coloured(edges, lanes, placed, ends, top) && i < |edges| && i !in placed
    requires forall h :: 0 <= h < |ends| ==> ends[h] >= Lo(edges[i])
    requires forall k :: 0 <= k < |placed| ==> Lo(edges[placed[k]]) <= Lo(edges[i])
    ensures Coloured(edges, lanes[i := |ends|], placed + [i], ends + [Hi(edges[i])], top + [i])
    ensures Crowded(edges, lanes[i := |ends|], placed + [i], top + [i], Lo(edges[i]))
  {
  }

  lemma ReusesLane(edges: seq<Edge>, lanes: seq<nat>, placed: seq<nat>, ends: seq<int>, top: seq<nat>, i: nat, lane: nat)
    requires Coloured(edges, lanes, placed, ends, top) && i < |edges| && i !in placed
    requires lane < |ends| && ends[lane] < Lo(edges[i])
    ensures Coloured(edges, lanes[i := lane], placed + [i], ends[lane := Hi(edges[i])], top[lane := i])
  {
  }

  lemma StaysCrowded(edges: seq<Edge>, lanes: seq<nat>, placed: seq<nat>, crowd: seq<nat>, row: int, i: nat, lane: nat)
    requires Crowded(edges, lanes, placed, crowd, row) && i < |lanes| && i !in placed
    ensures Crowded(edges, lanes[i := lane], placed + [i], crowd, row)
  {
  }

  /** The edges placed before an edge begin no later than it. */
  lemma {:induction false} PlacedByLowerEnd(edges: seq<Edge>, order: seq<nat>, n: nat)
    requires IsOrder(Keys(edges), order, |edges|) && n < |order|
    ensures order[n] < |edges| && order[n] !in order[..n]
    ensures forall k :: 0 <= k < n ==> order[k] < |edges| && Lo(edges[order[k]]) <= Lo(edges[order[n]])
  {
    forall k | 0 <= k < n
      ensures order[k] != order[n] && Lo(edges[order[k]]) <= Lo(edges[order[n]])
    {
      assert Precedes(Keys(edges), order[k], order[n]);
    }
  }

  lemma {:induction false} PlacesNext(edges: seq<Edge>, lanes: seq<nat>, order: seq<nat>, n: nat, ends: seq<int>,
                                      top: seq<nat>,
                   crowd: seq<nat>, row: int, lane: nat)
    requires IsOrder(Keys(edges), order, |edges|) && n < |order|
    requires Placed(edges, lanes, order[..n], ends, top, crowd, row)
    requires lane <= |ends| && (lane < |ends| ==> ends[lane] < Lo(edges[order[n]]))
    requires forall h :: 0 <= h < lane ==> ends[h] >= Lo(edges[order[n]])
    ensures var i := order[n];
            var lanes', placed, hi := lanes[i := lane], order[..n + 1], Hi(edges[i]);
            if lane == |ends| then Placed(edges, lanes', placed, ends + [hi], top + [i], top + [i], Lo(edges[i]))
            else Placed(edges, lanes', placed, ends[lane := hi], top[lane := i], crowd, row)
  {
    var i := order[n];
    PlacedByLowerEnd(edges, order, n);
    assert order[..n + 1] == order[..n] + [i];
    if lane == |ends| {
      OpensLane(edges, lanes, order[..n], ends, top, i);
    } else {
      ReusesLane(edges, lanes, order[..n], ends, top, i, lane);
      StaysCrowded(edges, lanes, order[..n], crowd, row, i, lane);
    }
  }

  lemma {:induction false} GreedyIsBest(edges: seq<Edge>, lanes: seq<nat>, order: seq<nat>, ends: seq<int>, top: seq<nat>,
                     crowd: seq<nat>, row: int)
    requires IsOrder(Keys(edges), order, |edges|)
    requires Placed(edges, lanes, order[..|order|], ends, top, crowd, row)
    ensures Proper(edges, lanes)
    ensures |Crowd(edges, row)| == LaneCount(lanes)
    ensures forall r :: |Crowd(edges, r)| <= LaneCount(lanes)
  {
    assert order[..|order|] == order;
    LanesAreProper(edges, lanes, order, ends, top);
    LanesAreNeeded(edges, lanes, order, ends, top, crowd, row);
  }

  method AssignLanes(edges: seq<Edge>) returns (lanes: seq<nat>, ghost row: int)
    ensures Proper(edges, lanes)
    ensures |Crowd(edges, row)| == LaneCount(lanes)
    ensures forall r :: |Crowd(edges, r)| <= LaneCount(lanes)
  {
    var order := Order(Keys(edges), |edges|);
    var ends: seq<int> := [];
    lanes := seq(|edges|, _ => 0);
    ghost var top: seq<nat>, crowd: seq<nat> := [], [];
    row := 0;
    for n := 0 to |order|
      invariant Placed(edges, lanes, order[..n], ends, top, crowd, row)
    {
      var i := order[n];
      var lo, hi := Lo(edges[i]), Hi(edges[i]);
      var lane := FirstFree(ends, lo);
      PlacesNext(edges, lanes, order, n, ends, top, crowd, row, lane);
      if lane == |ends| {
        ends, top := ends + [hi], top + [i];
        crowd, row := top, lo;
      } else {
        ends, top := ends[lane := hi], top[lane := i];
      }
      lanes := lanes[i := lane];
    }
    GreedyIsBest(edges, lanes, order, ends, top, crowd, row);
  }
}
