/**
 Turning the rectangles of a highlighted range into one band per line of text, and
 joining the bands of consecutive lines into blocks.
 */
module LineBands {
  import opened Collections
  import opened Wrappers
  import opened Sorting

  datatype Rect = Rect(left: real, right: real, top: real, bottom: real)

  datatype Line = Line(column: int, rects: seq<Rect>)

  datatype Box = Box(column: int, left: real, right: real, top: real, bottom: real)

  datatype Band = Band(left: real, right: real, top: real, bottom: real, first: bool, last: bool)

  // ---------------------------------------------------------------------
  // Lines
  // ---------------------------------------------------------------------

  /** The rectangles put on line `l`, in the order they came. */
  ghost function Members(rects: seq<Rect>, lineOf: seq<nat>, l: nat): seq<Rect>
    requires |lineOf| <= |rects|
  {
    if lineOf == [] then []
    else
      var n := |lineOf| - 1;
      Members(rects, lineOf[..n], l) + (if lineOf[n] == l then [rects[n]] else [])
  }

  predicate Fits(line: Line, column: int, r: Rect, tolerance: real) {
    line.column == column && line.rects != [] && Abs(line.rects[0].top - r.top) <= tolerance
  }

  /** Lines are not empty and hold exactly the rectangles put on them; each rectangle is on a line of its own column. */
  ghost predicate Sorted(rects: seq<Rect>, columnOf: Rect -> int, lines: seq<Line>, lineOf: seq<nat>)
    requires |lineOf| <= |rects|
  {
    && (forall i :: 0 <= i < |lineOf| ==> lineOf[i] < |lines| && lines[lineOf[i]].column == columnOf(rects[i]))
    && (forall l :: 0 <= l < |lines| ==> lines[l].rects != [] && lines[l].rects == Members(rects, lineOf, l))
  }

  /** The rectangle starts as high as the line's first one, or near it. */
  ghost predicate IsNear(line: Line, r: Rect, tolerance: real) {
    line.rects != [] && (line.rects[0].top == r.top || Abs(line.rects[0].top - r.top) <= tolerance)
  }

  /** Every rectangle is near the first one of its line, and no two lines of a column start near each other. */
  ghost predicate Near(rects: seq<Rect>, lines: seq<Line>, lineOf: seq<nat>, tolerance: real)
    requires |lineOf| <= |rects|
  {
    && (forall l :: 0 <= l < |lines| ==> lines[l].rects != [])
    && (forall i :: 0 <= i < |lineOf| && lineOf[i] < |lines| ==> IsNear(lines[lineOf[i]], rects[i], tolerance))
    && (forall k, l :: 0 <= k < l < |lines| && lines[k].column == lines[l].column ==>
          Abs(lines[k].rects[0].top - lines[l].rects[0].top) > tolerance)
  }

  /** No rectangle fits on a line before its own. */
  ghost predicate FirstFit(rects: seq<Rect>, columnOf: Rect -> int, lines: seq<Line>, lineOf: seq<nat>, tolerance: real)
    requires |lineOf| <= |rects|
  {
    forall i, k :: 0 <= i < |lineOf| && 0 <= k < |lines| && k < lineOf[i] ==>
      !Fits(lines[k], columnOf(rects[i]), rects[i], tolerance)
  }

  /** The lines of the first rectangles, with the line of each. */
  ghost predicate IsGrouping(rects: seq<Rect>, columnOf: Rect -> int, lines: seq<Line>, lineOf: seq<nat>, tolerance: real)
    requires |lineOf| <= |rects|
  {
    && Sorted(rects, columnOf, lines, lineOf) && Near(rects, lines, lineOf, tolerance)
    && FirstFit(rects, columnOf, lines, lineOf, tolerance)
  }

  /** The first line the rectangle fits on. */
  method FindLine(lines: seq<Line>, column: int, r: Rect, tolerance: real) returns (l: nat)
    requires forall k :: 0 <= k < |lines| ==> lines[k].rects != []
    ensures l <= |lines| && (l < |lines| ==> Fits(lines[l], column, r, tolerance))
    ensures forall k :: 0 <= k < l ==> !Fits(lines[k], column, r, tolerance)
  {
    l := 0;
    while l < |lines| && !(lines[l].column == column && Abs(lines[l].rects[0].top - r.top) <= tolerance)
      invariant l <= |lines| && forall k :: 0 <= k < l ==> !Fits(lines[k], column, r, tolerance)
    {
      l := l + 1;
    }
  }

  lemma {:induction false} MembersOfOthers(rects: seq<Rect>, lineOf: seq<nat>, l: nat)
    requires |lineOf| <= |rects| && forall i :: 0 <= i < |lineOf| ==> lineOf[i] != l
    ensures Members(rects, lineOf, l) == []
  {
    if lineOf != [] {
      MembersOfOthers(rects, lineOf[..|lineOf| - 1], l);
    }
  }

  lemma {:induction false} MemberAdded(rects: seq<Rect>, lineOf: seq<nat>, m: nat, l: nat)
    requires |lineOf| < |rects|
    ensures Members(rects, lineOf + [m], l) == Members(rects, lineOf, l) + (if m == l then [rects[|lineOf|]] else [])
  {
    assert (lineOf + [m])[..|lineOf|] == lineOf;
  }

  lemma Joins(rects: seq<Rect>, columnOf: Rect -> int, lines: seq<Line>, lineOf: seq<nat>, tolerance: real, l: nat)
    requires |lineOf| < |rects| && Sorted(rects, columnOf, lines, lineOf) && Near(rects, lines, lineOf, tolerance)
    requires l < |lines| && Fits(lines[l], columnOf(rects[|lineOf|]), rects[|lineOf|], tolerance)
    ensures var more := lines[l := lines[l].(rects := lines[l].rects + [rects[|lineOf|]])];
            Sorted(rects, columnOf, more, lineOf + [l]) && Near(rects, more, lineOf + [l], tolerance)
  {
    var more := lines[l := lines[l].(rects := lines[l].rects + [rects[|lineOf|]])];
    forall k | 0 <= k < |more|
      ensures more[k].rects == Members(rects, lineOf + [l], k) && more[k].rects[0] == lines[k].rects[0]
    {
      MemberAdded(rects, lineOf, l, k);
    }
  }

  lemma StartsSorted(rects: seq<Rect>, columnOf: Rect -> int, lines: seq<Line>, lineOf: seq<nat>)
    requires |lineOf| < |rects| && Sorted(rects, columnOf, lines, lineOf)
    ensures var more := lines + [Line(columnOf(rects[|lineOf|]), [rects[|lineOf|]])];
            Sorted(rects, columnOf, more, lineOf + [|lines|])
  {
    var r := rects[|lineOf|];
    var more := lines + [Line(columnOf(r), [r])];
    MembersOfOthers(rects, lineOf, |lines|);
    forall k | 0 <= k < |more|
      ensures more[k].rects == Members(rects, lineOf + [|lines|], k)
    {
      MemberAdded(rects, lineOf, |lines|, k);
    }
  }

  lemma StartsNear(rects: seq<Rect>, column: int, lines: seq<Line>, lineOf: seq<nat>, tolerance: real)
    requires |lineOf| < |rects| && Near(rects, lines, lineOf, tolerance)
    requires forall i :: 0 <= i < |lineOf| ==> lineOf[i] < |lines|
    requires forall k :: 0 <= k < |lines| ==> !Fits(lines[k], column, rects[|lineOf|], tolerance)
    ensures Near(rects, lines + [Line(column, [rects[|lineOf|]])], lineOf + [|lines|], tolerance)
  {
  }

  lemma {:induction false} JoinsGroup(rects: seq<Rect>, columnOf: Rect -> int, lines: seq<Line>, lineOf: seq<nat>, tolerance: real,
                                      l: nat)
    requires |lineOf| < |rects| && IsGrouping(rects, columnOf, lines, lineOf, tolerance)
    requires l < |lines| && Fits(lines[l], columnOf(rects[|lineOf|]), rects[|lineOf|], tolerance)
    requires forall k :: 0 <= k < l ==> !Fits(lines[k], columnOf(rects[|lineOf|]), rects[|lineOf|], tolerance)
    ensures IsGrouping(rects, columnOf, lines[l := lines[l].(rects := lines[l].rects + [rects[|lineOf|]])], lineOf + [l], tolerance)
  {
    Joins(rects, columnOf, lines, lineOf, tolerance, l);
  }

  lemma {:induction false} StartsGroup(rects: seq<Rect>, columnOf: Rect -> int, lines: seq<Line>, lineOf: seq<nat>, tolerance: real)
    requires |lineOf| < |rects| && IsGrouping(rects, columnOf, lines, lineOf, tolerance)
    requires forall k :: 0 <= k < |lines| ==> !Fits(lines[k], columnOf(rects[|lineOf|]), rects[|lineOf|], tolerance)
    ensures IsGrouping(rects, columnOf, lines + [Line(columnOf(rects[|lineOf|]), [rects[|lineOf|]])], lineOf + [|lines|], tolerance)
  {
    StartsSorted(rects, columnOf, lines, lineOf);
    StartsNear(rects, columnOf(rects[|lineOf|]), lines, lineOf, tolerance);
  }

  ghost predicate IsGrouped(rects: seq<Rect>, columnOf: Rect -> int, lines: seq<Line>, tolerance: real) {
    exists lineOf: seq<nat> :: |lineOf| == |rects| && IsGrouping(rects, columnOf, lines, lineOf, tolerance)
  }

  /** Puts each rectangle on the first line of its column that starts near it. */
  method GroupLines(rects: seq<Rect>, columnOf: Rect -> int, tolerance: real) returns (lines: seq<Line>)
    ensures IsGrouped(rects, columnOf, lines, tolerance)
  {
    lines := [];
    ghost var lineOf: seq<nat> := [];
    for i := 0 to |rects|
      invariant |lineOf| == i && IsGrouping(rects, columnOf, lines, lineOf, tolerance)
    {
      var r := rects[i];
      var column := columnOf(r);
      var l := FindLine(lines, column, r, tolerance);
      if l < |lines| {
        JoinsGroup(rects, columnOf, lines, lineOf, tolerance, l);
        lines := lines[l := lines[l].(rects := lines[l].rects + [r])];
      } else {
        StartsGroup(rects, columnOf, lines, lineOf, tolerance);
        lines := lines + [Line(column, [r])];
      }
      lineOf := lineOf + [l];
    }
  }

  // ---------------------------------------------------------------------
  // Boxes
  // ---------------------------------------------------------------------

  /** The smallest box around the rectangles. */
  ghost predicate Encloses(rects: seq<Rect>, b: Box) {
    && (forall i :: 0 <= i < |rects| ==>
          b.left <= rects[i].left && rects[i].right <= b.right && b.top <= rects[i].top && rects[i].bottom <= b.bottom)
    && (exists i :: 0 <= i < |rects| && rects[i].left == b.left)
    && (exists i :: 0 <= i < |rects| && rects[i].right == b.right)
    && (exists i :: 0 <= i < |rects| && rects[i].top == b.top)
    && (exists i :: 0 <= i < |rects| && rects[i].bottom == b.bottom)
  }

  ghost predicate IsBoxOf(line: Line, b: Box) {
    b.column == line.column && Encloses(line.rects, b)
  }

  method BoxOf(line: Line) returns (b: Box)
    requires line.rects != []
    ensures IsBoxOf(line, b)
  {
    var left, right, top, bottom := line.rects[0].left, line.rects[0].right, line.rects[0].top, line.rects[0].bottom;
    for i := 1 to |line.rects|
      invariant Encloses(line.rects[..i], Box(line.column, left, right, top, bottom))
    {
      var r := line.rects[i];
      ghost var before, after := line.rects[..i], line.rects[..i + 1];
      assert after == before + [r] && after[i] == r && forall k :: 0 <= k < i ==> after[k] == before[k];
      if r.left < left { left := r.left; }
      if r.right > right { right := r.right; }
      if r.top < top { top := r.top; }
      if r.bottom > bottom { bottom := r.bottom; }
    }
    assert line.rects[..|line.rects|] == line.rects;
    b := Box(line.column, left, right, top, bottom);
  }

  /** A line of upright rectangles has an upright box. */
  lemma BoxIsUpright(rects: seq<Rect>, b: Box)
    requires Encloses(rects, b) && forall i :: 0 <= i < |rects| ==> rects[i].top <= rects[i].bottom
    ensures b.top <= b.bottom
  {
    var i :| 0 <= i < |rects| && rects[i].top == b.top;
  }

  function Keys(boxes: seq<Box>): (keys: seq<Key>)
    ensures |keys| == |boxes| && forall i :: 0 <= i < |boxes| ==> keys[i] == Key(boxes[i].column as real, boxes[i].top)
  {
    if boxes == [] then []
    else Keys(boxes[..|boxes| - 1]) + [Key(boxes[|boxes| - 1].column as real, boxes[|boxes| - 1].top)]
  }

  // ---------------------------------------------------------------------
  // Bands
  // ---------------------------------------------------------------------

  /** The gap allowed inside a block; none given means any. */
  predicate Within(gap: real, maxGap: Option<real>) {
    maxGap.None? || gap <= maxGap.value
  }

  /** Box `i + 1` goes on with the block of box `i`. */
  predicate Joined(boxes: seq<Box>, maxGap: Option<real>, i: nat) {
    && i + 1 < |boxes| && boxes[i + 1].column == boxes[i].column
    && Within(boxes[i + 1].top - boxes[i].bottom, maxGap)
  }

  /** A box's band: as wide, from the same top, stretched to the next box inside a block. */
  function BandAt(boxes: seq<Box>, maxGap: Option<real>, i: nat): Band
    requires i < |boxes|
  {
    var b := boxes[i];
    Band(b.left, b.right, b.top, if Joined(boxes, maxGap, i) then boxes[i + 1].top else b.bottom,
         !(i > 0 && Joined(boxes, maxGap, i - 1)), !Joined(boxes, maxGap, i))
  }

  ghost predicate Banded(boxes: seq<Box>, maxGap: Option<real>, out: seq<Band>) {
    |out| == |boxes| && forall i :: 0 <= i < |out| ==> out[i] == BandAt(boxes, maxGap, i)
  }

  method MakeBands(boxes: seq<Box>, maxGap: Option<real>) returns (out: seq<Band>)
    ensures Banded(boxes, maxGap, out)
    ensures |out| == |boxes| && forall i :: 0 <= i < |out| ==>
              && out[i].left == boxes[i].left && out[i].right == boxes[i].right && out[i].top == boxes[i].top
              && (out[i].last ==> out[i].bottom == boxes[i].bottom)
  {
    out := [];
    for i := 0 to |boxes|
      invariant |out| == i && forall k :: 0 <= k < i ==> out[k] == BandAt(boxes, maxGap, k)
    {
      var b := boxes[i];
      var joinsPrev := i > 0 && boxes[i - 1].column == b.column && Within(b.top - boxes[i - 1].bottom, maxGap);
      var joinsNext := i + 1 < |boxes| && boxes[i + 1].column == b.column && Within(boxes[i + 1].top - b.bottom, maxGap);
      out := out + [Band(b.left, b.right, b.top, if joinsNext then boxes[i + 1].top else b.bottom, !joinsPrev, !joinsNext)];
    }
  }

  /** Every band of sorted upright boxes has a height of zero or more. */
  lemma {:induction false} BandsAreUpright(boxes: seq<Box>, order: seq<nat>, maxGap: Option<real>, out: seq<Band>, i: nat)
    requires IsOrder(Keys(boxes), order, |boxes|) && Banded(Arranged(boxes, order), maxGap, out) && i < |out|
    requires forall k :: 0 <= k < |boxes| ==> boxes[k].top <= boxes[k].bottom
    ensures out[i].top <= out[i].bottom
  {
    var sorted := Arranged(boxes, order);
    if Joined(sorted, maxGap, i) {
      assert Precedes(Keys(boxes), order[i], order[i + 1]);
    }
  }

  /** One box per line. */
  ghost predicate IsBoxed(lines: seq<Line>, boxes: seq<Box>) {
    |boxes| == |lines| && forall l :: 0 <= l < |lines| ==> IsBoxOf(lines[l], boxes[l])
  }

  lemma OneMoreBox(lines: seq<Line>, boxes: seq<Box>, line: Line, b: Box)
    requires IsBoxed(lines, boxes) && IsBoxOf(line, b)
    ensures IsBoxed(lines + [line], boxes + [b])
  {
    var moreLines, moreBoxes := lines + [line], boxes + [b];
    forall l | 0 <= l < |moreLines|
      ensures IsBoxOf(moreLines[l], moreBoxes[l])
    {
      if l < |lines| {
        assert moreLines[l] == lines[l] && moreBoxes[l] == boxes[l];
      }
    }
  }

  /** The bands are those of the boxes in order of column and top. */
  ghost predicate IsBanded(boxes: seq<Box>, maxGap: Option<real>, out: seq<Band>) {
    exists order :: IsOrder(Keys(boxes), order, |boxes|) && Banded(Arranged(boxes, order), maxGap, out)
  }

  /** From rectangles over lines and boxes to bands. */
  ghost predicate IsBanding(rects: seq<Rect>, columnOf: Rect -> int, tolerance: real, maxGap: Option<real>, out: seq<Band>) {
    exists lines, boxes ::
      IsGrouped(rects, columnOf, lines, tolerance) && IsBoxed(lines, boxes) && IsBanded(boxes, maxGap, out)
  }

  method BoxesOf(lines: seq<Line>) returns (boxes: seq<Box>)
    requires forall l :: 0 <= l < |lines| ==> lines[l].rects != []
    ensures IsBoxed(lines, boxes)
  {
    boxes := [];
    for l := 0 to |lines|
      invariant IsBoxed(lines[..l], boxes)
    {
      var box := BoxOf(lines[l]);
      OneMoreBox(lines[..l], boxes, lines[l], box);
      assert lines[..l] + [lines[l]] == lines[..l + 1];
      boxes := boxes + [box];
    }
    assert lines[..|lines|] == lines;
  }

  /** The bands of a range's rectangles. */
  method LineBandsOf(rects: seq<Rect>, columnOf: Rect -> int, tolerance: real, maxGap: Option<real>)
    returns (out: seq<Band>)
    ensures IsBanding(rects, columnOf, tolerance, maxGap, out) && IsCovered(rects, columnOf, tolerance, maxGap, out)
  {
    var lines := GroupLines(rects, columnOf, tolerance);
    var boxes := BoxesOf(lines);
    var order := Order(Keys(boxes), |boxes|);
    out := MakeBands(Arranged(boxes, order), maxGap);
    assert IsBanded(boxes, maxGap, out);
    BandsCoverLines(rects, columnOf, tolerance, maxGap, out);
  }

  // ---------------------------------------------------------------------
  // Bands over the rectangles
  // ---------------------------------------------------------------------

  ghost predicate On(rects: seq<Rect>, lineOf: seq<nat>, l: nat, i: int) {
    0 <= i < |rects| && i < |lineOf| && lineOf[i] == l
  }

  /** The band reaches as far left, right and up as the rectangles of the line do together. */
  ghost predicate Spans(rects: seq<Rect>, lineOf: seq<nat>, l: nat, band: Band) {
    && (forall i :: On(rects, lineOf, l, i) ==>
          band.left <= rects[i].left && rects[i].right <= band.right && band.top <= rects[i].top)
    && (exists i :: On(rects, lineOf, l, i) && rects[i].left == band.left)
    && (exists i :: On(rects, lineOf, l, i) && rects[i].right == band.right)
    && (exists i :: On(rects, lineOf, l, i) && rects[i].top == band.top)
  }

  /** The line reaches down to `y`. */
  ghost predicate EndsAt(rects: seq<Rect>, lineOf: seq<nat>, l: nat, y: real) {
    && (forall i :: On(rects, lineOf, l, i) ==> rects[i].bottom <= y)
    && (exists i :: On(rects, lineOf, l, i) && rects[i].bottom == y)
  }

  /**
   Of two neighbouring bands the first is not the last of its block exactly when the lines
   share a column and are close enough.
   */
  ghost predicate JoinsNext(rects: seq<Rect>, columnOf: Rect -> int, maxGap: Option<real>, lineOf: seq<nat>,
                            l: nat, m: nat, band: Band, next: Band) {
    forall i, j, y :: On(rects, lineOf, l, i) && On(rects, lineOf, m, j) && EndsAt(rects, lineOf, l, y) ==>
      (!band.last <==> columnOf(rects[i]) == columnOf(rects[j]) && (maxGap.None? || next.top - y <= maxGap.value))
  }

  /** Bands go by column, and in a column from top to bottom. */
  ghost predicate Above(rects: seq<Rect>, columnOf: Rect -> int, lineOf: seq<nat>, l: nat, m: nat, band: Band, later: Band) {
    forall i, j :: On(rects, lineOf, l, i) && On(rects, lineOf, m, j) ==>
      columnOf(rects[i]) < columnOf(rects[j]) || (columnOf(rects[i]) == columnOf(rects[j]) && band.top <= later.top)
  }

  /** Band `b` belongs to line `order[b]`; every line has one. */
  ghost predicate Covers(rects: seq<Rect>, columnOf: Rect -> int, maxGap: Option<real>, lineOf: seq<nat>, order: seq<nat>,
                         out: seq<Band>) {
    && |lineOf| == |rects| && |out| == |order| && Distinct(order)
    && (forall i :: 0 <= i < |rects| ==> lineOf[i] in order)
    && (forall b :: 0 <= b < |out| ==> Spans(rects, lineOf, order[b], out[b]))
    && (forall b :: 0 <= b < |out| && out[b].last ==> EndsAt(rects, lineOf, order[b], out[b].bottom))
    && (forall b :: 0 <= b < |out| - 1 ==>
          JoinsNext(rects, columnOf, maxGap, lineOf, order[b], order[b + 1], out[b], out[b + 1]))
    && (forall b, d :: 0 <= b < d < |out| ==> Above(rects, columnOf, lineOf, order[b], order[d], out[b], out[d]))
  }

  ghost predicate IsCovered(rects: seq<Rect>, columnOf: Rect -> int, tolerance: real, maxGap: Option<real>, out: seq<Band>) {
    exists lines, lineOf: seq<nat>, order: seq<nat> ::
      && |lineOf| == |rects| && IsGrouping(rects, columnOf, lines, lineOf, tolerance)
      && Covers(rects, columnOf, maxGap, lineOf, order, out)
  }

  lemma {:induction false} MembersAreOn(rects: seq<Rect>, lineOf: seq<nat>, l: nat, r: Rect)
    requires |lineOf| <= |rects|
    ensures r in Members(rects, lineOf, l) <==> exists i :: On(rects, lineOf, l, i) && rects[i] == r
  {
    if lineOf != [] {
      var n := |lineOf| - 1;
      MembersAreOn(rects, lineOf[..n], l, r);
      if i :| On(rects, lineOf[..n], l, i) && rects[i] == r {
        assert On(rects, lineOf, l, i);
      }
      if i :| On(rects, lineOf, l, i) && rects[i] == r {
        assert i < n ==> On(rects, lineOf[..n], l, i);
        assert i == n ==> r in Members(rects, lineOf, l);
      }
      if lineOf[n] == l {
        assert On(rects, lineOf, l, n);
      }
    }
  }

  lemma {:induction false} BoxSpans(rects: seq<Rect>, lineOf: seq<nat>, l: nat, box: Box, band: Band)
    requires |lineOf| == |rects| && Encloses(Members(rects, lineOf, l), box)
    requires band.left == box.left && band.right == box.right && band.top == box.top
    ensures Spans(rects, lineOf, l, band) && EndsAt(rects, lineOf, l, box.bottom)
  {
    var members := Members(rects, lineOf, l);
    forall i | On(rects, lineOf, l, i)
      ensures rects[i] in members
    {
      MembersAreOn(rects, lineOf, l, rects[i]);
    }
    forall k | 0 <= k < |members|
      ensures exists i :: On(rects, lineOf, l, i) && rects[i] == members[k]
    {
      MembersAreOn(rects, lineOf, l, members[k]);
    }
  }

  lemma EndsOnce(rects: seq<Rect>, lineOf: seq<nat>, l: nat, y: real, z: real)
    requires EndsAt(rects, lineOf, l, y) && EndsAt(rects, lineOf, l, z)
    ensures y == z
  {
  }

  /** A grouping, its boxes and a stable order of them, as the bands are made from. */
  ghost predicate Prepared(rects: seq<Rect>, columnOf: Rect -> int, tolerance: real, lines: seq<Line>, lineOf: seq<nat>,
                           boxes: seq<Box>, order: seq<nat>) {
    && |lineOf| == |rects| && IsGrouping(rects, columnOf, lines, lineOf, tolerance) && IsBoxed(lines, boxes)
    && IsOrder(Keys(boxes), order, |boxes|)
  }

  lemma {:induction false} BandSpans(rects: seq<Rect>, columnOf: Rect -> int, tolerance: real, lines: seq<Line>, lineOf: seq<nat>,
                                     boxes: seq<Box>, order: seq<nat>, maxGap: Option<real>, out: seq<Band>, b: nat)
    requires Prepared(rects, columnOf, tolerance, lines, lineOf, boxes, order)
    requires Banded(Arranged(boxes, order), maxGap, out) && b < |out|
    ensures Spans(rects, lineOf, order[b], out[b]) && EndsAt(rects, lineOf, order[b], boxes[order[b]].bottom)
    ensures out[b].last ==> out[b].bottom == boxes[order[b]].bottom
  {
    assert out[b] == BandAt(Arranged(boxes, order), maxGap, b);
    assert IsBoxOf(lines[order[b]], boxes[order[b]]);
    BoxSpans(rects, lineOf, order[b], boxes[order[b]], out[b]);
  }

  ghost predicate InColumn(rects: seq<Rect>, columnOf: Rect -> int, lineOf: seq<nat>, l: nat, column: int) {
    forall i :: On(rects, lineOf, l, i) ==> columnOf(rects[i]) == column
  }

  lemma LineInColumn(rects: seq<Rect>, columnOf: Rect -> int, lines: seq<Line>, lineOf: seq<nat>, boxes: seq<Box>, l: nat)
    requires |lineOf| == |rects| && Sorted(rects, columnOf, lines, lineOf) && IsBoxed(lines, boxes) && l < |boxes|
    ensures InColumn(rects, columnOf, lineOf, l, boxes[l].column)
  {
    assert IsBoxOf(lines[l], boxes[l]);
  }

  lemma JoinsByBoxes(rects: seq<Rect>, columnOf: Rect -> int, maxGap: Option<real>, lineOf: seq<nat>, l: nat, m: nat,
                     box: Box, below: Box, band: Band, next: Band)
    requires EndsAt(rects, lineOf, l, box.bottom) && next.top == below.top
    requires InColumn(rects, columnOf, lineOf, l, box.column) && InColumn(rects, columnOf, lineOf, m, below.column)
    requires !band.last <==> below.column == box.column && Within(below.top - box.bottom, maxGap)
    ensures JoinsNext(rects, columnOf, maxGap, lineOf, l, m, band, next)
  {
    forall i, j, y | On(rects, lineOf, l, i) && On(rects, lineOf, m, j) && EndsAt(rects, lineOf, l, y)
      ensures !band.last <==> columnOf(rects[i]) == columnOf(rects[j]) && (maxGap.None? || next.top - y <= maxGap.value)
    {
      EndsOnce(rects, lineOf, l, y, box.bottom);
    }
  }

  lemma {:induction false} NeighboursJoin(rects: seq<Rect>, columnOf: Rect -> int, tolerance: real, lines: seq<Line>,
                                          lineOf: seq<nat>, boxes: seq<Box>, order: seq<nat>, maxGap: Option<real>,
                                          out: seq<Band>, b: nat)
    requires Prepared(rects, columnOf, tolerance, lines, lineOf, boxes, order)
    requires Banded(Arranged(boxes, order), maxGap, out) && b + 1 < |out|
    ensures JoinsNext(rects, columnOf, maxGap, lineOf, order[b], order[b + 1], out[b], out[b + 1])
  {
    var l, m := order[b], order[b + 1];
    BandSpans(rects, columnOf, tolerance, lines, lineOf, boxes, order, maxGap, out, b);
    LineInColumn(rects, columnOf, lines, lineOf, boxes, l);
    LineInColumn(rects, columnOf, lines, lineOf, boxes, m);
    NextBand(boxes, order, maxGap, out, b);
    JoinsByBoxes(rects, columnOf, maxGap, lineOf, l, m, boxes[l], boxes[m], out[b], out[b + 1]);
  }

  lemma {:induction false} NextBand(boxes: seq<Box>, order: seq<nat>, maxGap: Option<real>, out: seq<Band>, b: nat)
    requires (forall i :: 0 <= i < |order| ==> order[i] < |boxes|) && |order| == |boxes|
    requires Banded(Arranged(boxes, order), maxGap, out) && b + 1 < |out|
    ensures var box, below := boxes[order[b]], boxes[order[b + 1]];
            && out[b + 1].top == below.top
            && (!out[b].last <==> below.column == box.column && Within(below.top - box.bottom, maxGap))
  {
    assert out[b] == BandAt(Arranged(boxes, order), maxGap, b) && out[b + 1] == BandAt(Arranged(boxes, order), maxGap, b + 1);
  }

  lemma {:induction false} BandsGoDown(rects: seq<Rect>, columnOf: Rect -> int, tolerance: real, lines: seq<Line>,
                                       lineOf: seq<nat>, boxes: seq<Box>, order: seq<nat>, maxGap: Option<real>,
                                       out: seq<Band>, b: nat, d: nat)
    requires Prepared(rects, columnOf, tolerance, lines, lineOf, boxes, order)
    requires Banded(Arranged(boxes, order), maxGap, out) && b < d < |out|
    ensures Above(rects, columnOf, lineOf, order[b], order[d], out[b], out[d])
  {
    assert out[b] == BandAt(Arranged(boxes, order), maxGap, b) && out[d] == BandAt(Arranged(boxes, order), maxGap, d);
    assert Precedes(Keys(boxes), order[b], order[d]);
    LineInColumn(rects, columnOf, lines, lineOf, boxes, order[b]);
    LineInColumn(rects, columnOf, lines, lineOf, boxes, order[d]);
  }

  lemma OrderedOnce(keys: seq<Key>, order: seq<nat>)
    requires IsOrder(keys, order, |keys|)
    ensures Distinct(order)
  {
    forall i, j | 0 <= i < j < |order|
      ensures order[i] != order[j]
    {
      assert Precedes(keys, order[i], order[j]);
    }
  }

  lemma {:induction false} PreparedCovers(rects: seq<Rect>, columnOf: Rect -> int, tolerance: real, lines: seq<Line>,
                                          lineOf: seq<nat>, boxes: seq<Box>, order: seq<nat>, maxGap: Option<real>,
                                          out: seq<Band>)
    requires Prepared(rects, columnOf, tolerance, lines, lineOf, boxes, order)
    requires Banded(Arranged(boxes, order), maxGap, out)
    ensures Covers(rects, columnOf, maxGap, lineOf, order, out)
  {
    OrderedOnce(Keys(boxes), order);
    forall b | 0 <= b < |out|
      ensures Spans(rects, lineOf, order[b], out[b])
      ensures out[b].last ==> EndsAt(rects, lineOf, order[b], out[b].bottom)
    {
      BandSpans(rects, columnOf, tolerance, lines, lineOf, boxes, order, maxGap, out, b);
    }
    forall b | 0 <= b < |out| - 1
      ensures JoinsNext(rects, columnOf, maxGap, lineOf, order[b], order[b + 1], out[b], out[b + 1])
    {
      NeighboursJoin(rects, columnOf, tolerance, lines, lineOf, boxes, order, maxGap, out, b);
    }
    forall b, d | 0 <= b < d < |out|
      ensures Above(rects, columnOf, lineOf, order[b], order[d], out[b], out[d])
    {
      BandsGoDown(rects, columnOf, tolerance, lines, lineOf, boxes, order, maxGap, out, b, d);
    }
  }

  /**
   One band per line, by column and from top to bottom: each reaches as far left, right
   and up as the rectangles put on its line, the last of a block as far down too, and two
   neighbours are in one block exactly when their lines share a column and the gap between
   them is within the one allowed.
   */
  lemma {:induction false} BandsCoverLines(rects: seq<Rect>, columnOf: Rect -> int, tolerance: real, maxGap: Option<real>,
                                           out: seq<Band>)
    requires IsBanding(rects, columnOf, tolerance, maxGap, out)
    ensures IsCovered(rects, columnOf, tolerance, maxGap, out)
  {
    var lines: seq<Line>, boxes: seq<Box> :|
      IsGrouped(rects, columnOf, lines, tolerance) && IsBoxed(lines, boxes) && IsBanded(boxes, maxGap, out);
    var lineOf: seq<nat> :| |lineOf| == |rects| && IsGrouping(rects, columnOf, lines, lineOf, tolerance);
    var order :| IsOrder(Keys(boxes), order, |boxes|) && Banded(Arranged(boxes, order), maxGap, out);
    PreparedCovers(rects, columnOf, tolerance, lines, lineOf, boxes, order, maxGap, out);
  }

  /**
   The bands of any rectangles fall into blocks: the first band begins one, a band is
   the last of its block exactly when it is the last of all or the next one begins a
   block, and inside a block a band ends where the next one starts.
   */
  lemma BlocksFollow(rects: seq<Rect>, columnOf: Rect -> int, tolerance: real, maxGap: Option<real>, out: seq<Band>,
                     i: nat)
    requires IsBanding(rects, columnOf, tolerance, maxGap, out) && i < |out|
    ensures i == 0 ==> out[i].first
    ensures out[i].last <==> i + 1 == |out| || out[i + 1].first
    ensures !out[i].last ==> i + 1 < |out| && out[i].bottom == out[i + 1].top
  {
    var lines: seq<Line>, boxes: seq<Box> :|
      IsGrouped(rects, columnOf, lines, tolerance) && IsBoxed(lines, boxes) && IsBanded(boxes, maxGap, out);
    var order :| IsOrder(Keys(boxes), order, |boxes|) && Banded(Arranged(boxes, order), maxGap, out);
    if i + 1 < |out| {
      assert out[i + 1] == BandAt(Arranged(boxes, order), maxGap, i + 1);
    }
  }

  lemma {:induction false} MembersAreRects(rects: seq<Rect>, lineOf: seq<nat>, l: nat)
    requires |lineOf| <= |rects|
    ensures forall r :: r in Members(rects, lineOf, l) ==> r in rects
  {
    if lineOf != [] {
      MembersAreRects(rects, lineOf[..|lineOf| - 1], l);
    }
  }

  lemma {:induction false} MembersAreUpright(rects: seq<Rect>, lineOf: seq<nat>, l: nat, b: Box)
    requires |lineOf| <= |rects| && forall i :: 0 <= i < |rects| ==> rects[i].top <= rects[i].bottom
    requires Encloses(Members(rects, lineOf, l), b)
    ensures b.top <= b.bottom
  {
    var members := Members(rects, lineOf, l);
    MembersAreRects(rects, lineOf, l);
    forall k | 0 <= k < |members|
      ensures members[k].top <= members[k].bottom
    {
      assert members[k] in rects;
    }
    BoxIsUpright(members, b);
  }

  lemma {:induction false} BoxesAreUpright(rects: seq<Rect>, columnOf: Rect -> int, lines: seq<Line>, tolerance: real,
                                           boxes: seq<Box>, l: nat)
    requires forall i :: 0 <= i < |rects| ==> rects[i].top <= rects[i].bottom
    requires IsGrouped(rects, columnOf, lines, tolerance) && IsBoxed(lines, boxes) && l < |boxes|
    ensures boxes[l].top <= boxes[l].bottom
  {
    var lineOf: seq<nat> :| |lineOf| == |rects| && IsGrouping(rects, columnOf, lines, lineOf, tolerance);
    MembersAreUpright(rects, lineOf, l, boxes[l]);
  }

  lemma {:induction false} BandedUpright(boxes: seq<Box>, maxGap: Option<real>, out: seq<Band>, i: nat)
    requires forall k :: 0 <= k < |boxes| ==> boxes[k].top <= boxes[k].bottom
    requires IsBanded(boxes, maxGap, out) && i < |out|
    ensures out[i].top <= out[i].bottom
  {
    var order :| IsOrder(Keys(boxes), order, |boxes|) && Banded(Arranged(boxes, order), maxGap, out);
    BandsAreUpright(boxes, order, maxGap, out, i);
  }

  /** Upright rectangles give upright bands, whatever the columns and gaps. */
  lemma {:induction false} UprightBands(rects: seq<Rect>, columnOf: Rect -> int, tolerance: real, maxGap: Option<real>,
                                        out: seq<Band>, i: nat)
    requires forall k :: 0 <= k < |rects| ==> rects[k].top <= rects[k].bottom
    requires IsBanding(rects, columnOf, tolerance, maxGap, out) && i < |out|
    ensures out[i].top <= out[i].bottom
  {
    var lines: seq<Line>, boxes: seq<Box> :|
      IsGrouped(rects, columnOf, lines, tolerance) && IsBoxed(lines, boxes) && IsBanded(boxes, maxGap, out);
    forall l | 0 <= l < |boxes|
      ensures boxes[l].top <= boxes[l].bottom
    {
      BoxesAreUpright(rects, columnOf, lines, tolerance, boxes, l);
    }
    BandedUpright(boxes, maxGap, out, i);
  }
}
