/** Grouping the items of a margin into lines: sorted by height, split greedily, with as few groups as can be. */
module LineClusters {
  import opened Collections
  import opened Sorting
  import Lanes

  datatype Item = Item(name: string, y: real)

  function Heights(items: seq<Item>): (keys: seq<Key>)
    ensures |keys| == |items| && forall i :: 0 <= i < |items| ==> keys[i] == Key(items[i].y, 0.0)
  {
    if items == [] then [] else Heights(items[..|items| - 1]) + [Key(items[|items| - 1].y, 0.0)]
  }

  function Flat(lines: seq<seq<Item>>): seq<Item> {
    if lines == [] then [] else Flat(lines[..|lines| - 1]) + lines[|lines| - 1]
  }

  /** Every line has a first item, and the others are at most the tolerance below it. */
  ghost predicate Tight(lines: seq<seq<Item>>, tolerance: real) {
    && (forall k :: 0 <= k < |lines| ==> lines[k] != [])
    && forall k, i :: 0 <= k < |lines| && 0 <= i < |lines[k]| ==>
         lines[k][i].y == lines[k][0].y || 0.0 <= lines[k][i].y - lines[k][0].y <= tolerance
  }

  /** The first items of any two lines are too far apart for one line. */
  ghost predicate Apart(items: seq<Item>, heads: seq<nat>, tolerance: real) {
    && (forall k :: 0 <= k < |heads| ==> heads[k] < |items|)
    && forall k, l :: 0 <= k < l < |heads| ==>
         items[heads[k]].y <= items[heads[l]].y && items[heads[l]].y - items[heads[k]].y > tolerance
  }

  /** The lines of the first items, none of which is below those to come. */
  ghost predicate Clustered(items: seq<Item>, lines: seq<seq<Item>>, heads: seq<nat>, tolerance: real, low: real) {
    && Tight(lines, tolerance) && |heads| == |lines|
    && Apart(items, heads, tolerance)
    && (forall k :: 0 <= k < |lines| ==> heads[k] < |items| && lines[k][0] == items[heads[k]])
    && (forall k :: 0 <= k < |lines| ==> lines[k][0].y <= low)
  }

  lemma JoinsLine(items: seq<Item>, lines: seq<seq<Item>>, heads: seq<nat>, tolerance: real, item: Item, low: real)
    requires Clustered(items, lines, heads, tolerance, item.y) && item.y <= low
    requires lines != [] && item.y - lines[|lines| - 1][0].y <= tolerance
    ensures var last := |lines| - 1; Clustered(items, lines[last := lines[last] + [item]], heads, tolerance, low)
    ensures var last := |lines| - 1; Flat(lines[last := lines[last] + [item]]) == Flat(lines) + [item]
  {
    var last := |lines| - 1;
    var more := lines[last := lines[last] + [item]];
    assert more[..last] == lines[..last];
  }

  lemma {:induction false} StartsLine(items: seq<Item>, lines: seq<seq<Item>>, heads: seq<nat>, tolerance: real,
                                      head: nat, low: real)
    requires head < |items| && Clustered(items, lines, heads, tolerance, items[head].y) && items[head].y <= low
    requires lines != [] ==> items[head].y - lines[|lines| - 1][0].y > tolerance
    ensures Clustered(items, lines + [[items[head]]], heads + [head], tolerance, low)
    ensures Flat(lines + [[items[head]]]) == Flat(lines) + [items[head]]
  {
    var more, all := lines + [[items[head]]], heads + [head];
    assert more[..|lines|] == lines;
    if heads != [] {
      var last := |heads| - 1;
      forall k | 0 <= k < |heads|
        ensures items[head].y - items[heads[k]].y > tolerance
      {
        assert k < last ==> items[heads[k]].y <= items[heads[last]].y;
      }
    }
  }

  /**
   The greedy pass over the sorted items: an item joins the last line while it is within
   the tolerance of its first item.
   */
  method SplitLines(items: seq<Item>, order: seq<nat>, tolerance: real)
    returns (lines: seq<seq<Item>>, ghost heads: seq<nat>, ghost low: real)
    requires forall i :: 0 <= i < |order| ==> order[i] < |items|
    requires forall i, j :: 0 <= i < j < |order| ==> items[order[i]].y <= items[order[j]].y
    ensures Flat(lines) == Arranged(items, order) && Clustered(items, lines, heads, tolerance, low)
  {
    var sorted := Arranged(items, order);
    lines, heads := [], [];
    low := if sorted == [] then 0.0 else sorted[0].y;
    for i := 0 to |sorted|
      invariant Flat(lines) == sorted[..i] && Clustered(items, lines, heads, tolerance, low)
      invariant i < |sorted| ==> low == sorted[i].y
    {
      var item := sorted[i];
      ghost var next := if i + 1 < |sorted| then sorted[i + 1].y else item.y;
      assert sorted[..i + 1] == sorted[..i] + [item];
      if lines != [] && item.y - lines[|lines| - 1][0].y <= tolerance {
        JoinsLine(items, lines, heads, tolerance, item, next);
        lines := lines[|lines| - 1 := lines[|lines| - 1] + [item]];
      } else {
        StartsLine(items, lines, heads, tolerance, order[i], next);
        lines := lines + [[item]];
        heads := heads + [order[i]];
      }
      low := next;
    }
    assert sorted[..|sorted|] == sorted;
  }

  /** Lines of the items, every item in one of them, in order of height. */
  method ClusterByLine(items: seq<Item>, tolerance: real)
    returns (lines: seq<seq<Item>>, ghost order: seq<nat>, ghost heads: seq<nat>)
    ensures IsOrder(Heights(items), order, |items|) && Flat(lines) == Arranged(items, order)
    ensures Tight(lines, tolerance)
    ensures |heads| == |lines| && Apart(items, heads, tolerance)
    ensures forall k :: 0 <= k < |lines| ==> heads[k] < |items| && lines[k][0] == items[heads[k]]
  {
    var sortedOrder := Order(Heights(items), |items|);
    order := sortedOrder;
    SortedByHeight(items, sortedOrder);
    ghost var low;
    lines, heads, low := SplitLines(items, sortedOrder, tolerance);
  }

  lemma {:induction false} SortedByHeight(items: seq<Item>, order: seq<nat>)
    requires IsOrder(Heights(items), order, |items|)
    ensures forall i, j :: 0 <= i < j < |items| ==> items[order[i]].y <= items[order[j]].y
  {
    forall i, j | 0 <= i < j < |items|
      ensures items[order[i]].y <= items[order[j]].y
    {
      assert Precedes(Heights(items), order[i], order[j]);
    }
  }

  /** A grouping by number: items of one group are within the tolerance of each other. */
  ghost predicate Groups(items: seq<Item>, group: seq<nat>, count: nat, tolerance: real) {
    && |group| == |items| && (forall i :: 0 <= i < |items| ==> group[i] < count)
    && forall i, j :: 0 <= i < |items| && 0 <= j < |items| && group[i] == group[j] ==> items[i].y - items[j].y <= tolerance
  }

  /** No grouping within the tolerance has fewer groups than there are lines. */
  lemma FewestLines(items: seq<Item>, heads: seq<nat>, group: seq<nat>, count: nat, tolerance: real)
    requires Apart(items, heads, tolerance) && Groups(items, group, count, tolerance)
    ensures |heads| <= count
  {
    assert items != [] ==> items[0].y - items[0].y <= tolerance;
    var firsts := set k | 0 <= k < |heads| :: heads[k];
    forall k, l | 0 <= k < l < |heads|
      ensures heads[k] != heads[l]
    {
      assert items[heads[l]].y - items[heads[k]].y > tolerance;
    }
    DistinctFits(heads, firsts);
    forall i, j | i in firsts && j in firsts && group[i] == group[j]
      ensures i == j
    {
      var k :| 0 <= k < |heads| && heads[k] == i;
      var l :| 0 <= l < |heads| && heads[l] == j;
      assert k < l || k == l || l < k;
    }
    Lanes.InjectionFits(firsts, group, count);
  }
}
