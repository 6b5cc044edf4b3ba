/**
 How the units of an accepted ownership build cut the segments: exactly, if every
 unit was read as the part of the segment it is expected as; and only then.
 */
module ExactCover {
  import opened Collections
  import opened Wrappers
  import opened Sorting
  import opened Ownership

  // ---------------------------------------------------------------------
  // What an exact cover is, and what it takes
  // ---------------------------------------------------------------------

  /** `t` is the text the coverage file names for the segment. */
  ghost predicate IsSegmentText(h: Hashes, index: Index, segment: string, t: string) {
    segment in index.coverage && h.text(t) == index.coverage[segment].textHash
  }

  predicate Covers(row: Row, segment: string, k: int) {
    row.identity.segment == segment && row.identity.start <= k < row.identity.end
  }

  ghost predicate OnlyUnit(rows: map<string, Row>, segment: string, k: int, unit: string) {
    && unit in rows && Covers(rows[unit], segment, k)
    && forall v :: v in rows && Covers(rows[v], segment, k) ==> v == unit
  }

  ghost predicate InOneUnit(rows: map<string, Row>, segment: string, k: int) {
    exists unit :: OnlyUnit(rows, segment, k, unit)
  }

  /** Every code point of every segment belongs to exactly one unit. */
  ghost predicate IsExactCover(h: Hashes, index: Index, rows: map<string, Row>) {
    forall segment, t :: IsSegmentText(h, index, segment, t) ==> forall k :: 0 <= k < |t| ==> InOneUnit(rows, segment, k)
  }

  ghost predicate PieceInPlace(rows: map<string, Row>, segment: string, d: Declared) {
    && d.pieceId in rows && rows[d.pieceId].identity.segment == segment
    && rows[d.pieceId].identity.start == d.rawStart && rows[d.pieceId].identity.end == d.rawEnd
  }

  ghost predicate SegmentInPlace(index: Index, rows: map<string, Row>, segment: string) {
    if segment in index.pieces then
      forall n :: 0 <= n < |index.pieces[segment].pieces| ==> PieceInPlace(rows, segment, index.pieces[segment].pieces[n])
    else
      segment in rows && rows[segment].identity.segment == segment
  }

  /** Each unit the check of the segments expects was read as that part of that segment. */
  ghost predicate RowsInPlace(index: Index, rows: map<string, Row>) {
    forall segment :: segment in index.coverage ==> SegmentInPlace(index, rows, segment)
  }

  /** A frozen source of a declared piece's name is that piece of that segment. */
  ghost predicate IsDeclaredPiece(e: Entry, segment: string, d: Declared) {
    At(e.source).unit == d.pieceId ==>
      e.source.segment == segment && At(e.source).start == d.rawStart && At(e.source).end == d.rawEnd
  }

  ghost predicate SourceInPlace(index: Index, e: Entry, segment: string) {
    if segment in index.pieces then
      forall n :: 0 <= n < |index.pieces[segment].pieces| ==> IsDeclaredPiece(e, segment, index.pieces[segment].pieces[n])
    else
      At(e.source).unit == segment ==> e.source.segment == segment
  }

  /** What the check of the segments leaves out: every frozen source lies where its unit's name is expected. */
  ghost predicate ReadInPlace(index: Index, jobs: seq<Placed>) {
    forall e, segment :: e in Entries(jobs, |jobs|) && segment in index.coverage ==> SourceInPlace(index, e, segment)
  }

  /** No frozen source goes by the name of a segment that was cut. */
  ghost predicate CutsReadInPieces(index: Index, jobs: seq<Placed>) {
    forall e :: e in Entries(jobs, |jobs|) ==> !(At(e.source).unit in index.coverage && At(e.source).unit in index.pieces)
  }

  // ---------------------------------------------------------------------
  // What the rows are made of
  // ---------------------------------------------------------------------

  /** The row lists exactly the candidates, none of them ranking before its owner. */
  ghost predicate Ranked(order: map<string, nat>, candidates: seq<Candidate>, row: Row) {
    && (forall c :: c in OptionsOf(row) <==> c in candidates)
    && (forall c :: c in candidates ==> !Before(Rank(order, c), Rank(order, row.owner)))
  }

  ghost predicate AreReadings(h: Hashes, index: Index, done: seq<Entry>, readings: seq<Reading>) {
    |readings| == |done| && forall i :: 0 <= i < |done| ==> readings[i] == ReadingOf(h, index, done[i])
  }

  /** An accepted build in short: `done` are all sources read, `readings` what they came down to. */
  ghost predicate Bound(h: Hashes, index: Index, done: seq<Entry>, readings: seq<Reading>, order: map<string, nat>,
                        texts: map<string, Copy>, rows: map<string, Row>) {
    && AreReadings(h, index, done, readings)
    && Checked(readings, |readings|) && rows.Keys == texts.Keys
    && (forall u :: u in rows <==> Expected(index, u))
    && (forall u :: u in rows ==> Read(readings, |readings|, u, texts[u]) && rows[u].identity == texts[u].identity)
    && (forall u :: u in rows ==> Ranked(order, CandidatesFor(readings, u), rows[u]))
    && (forall i :: 0 <= i < |readings| ==> readings[i].unit in rows)
    && SegmentsOk(h, index, index.coverage.Keys, texts)
  }

  lemma RowIsRanked(order: map<string, nat>, candidates: seq<Candidate>, copy: Copy)
    requires candidates != []
    ensures Ranked(order, candidates, RowOf(order, candidates, copy))
    ensures RowOf(order, candidates, copy).identity == copy.identity
  {
    OptionsAreSorted(order, candidates);
    assert OptionsOf(RowOf(order, candidates, copy)) == Options(order, candidates);
  }

  /** The texts of the units, as an accepted build reads them. */
  ghost function TextsOf(h: Hashes, index: Index, jobs: seq<Placed>): map<string, Copy> {
    var readings := AllRead(h, index, jobs);
    TextsTo(readings, |readings|)
  }

  lemma {:induction false} BuiltIsBound(h: Hashes, index: Index, jobs: seq<Placed>, order: map<string, nat>,
                                        rows: map<string, Row>)
    requires Admissible(h, index, jobs) && Built(h, index, jobs, order, rows)
    ensures Bound(h, index, Entries(jobs, |jobs|), AllRead(h, index, jobs), order, TextsOf(h, index, jobs), rows)
  {
    var readings, texts := AllRead(h, index, jobs), TextsOf(h, index, jobs);
    TextsAreRead(readings, |readings|);
    assert RowsFor(readings, order, rows);
    forall u | u in rows
      ensures Ranked(order, CandidatesFor(readings, u), rows[u]) && rows[u].identity == texts[u].identity
    {
      RowIsRanked(order, CandidatesFor(readings, u), texts[u]);
    }
  }

  lemma RowIsRead(h: Hashes, index: Index, done: seq<Entry>, readings: seq<Reading>, order: map<string, nat>,
                  texts: map<string, Copy>, rows: map<string, Row>, unit: string) returns (e: Entry)
    requires Bound(h, index, done, readings, order, texts, rows) && unit in rows
    ensures e in done && SourceOk(h, index, e.job.id, e.source)
    ensures At(e.source).unit == unit && CopyOf(e.source) == texts[unit] && rows[unit].identity == texts[unit].identity
  {
    var i :| 0 <= i < |readings| && IsCopy(readings[i], unit, texts[unit]);
    assert readings[i].sound;
    e := done[i];
  }

  lemma EntryIsChecked(h: Hashes, index: Index, done: seq<Entry>, readings: seq<Reading>, order: map<string, nat>,
                       texts: map<string, Copy>, rows: map<string, Row>, e: Entry)
    requires Bound(h, index, done, readings, order, texts, rows) && e in done
    ensures SourceOk(h, index, e.job.id, e.source) && At(e.source).unit in rows
    ensures rows[At(e.source).unit].identity == CopyOf(e.source).identity
    ensures Ranked(order, CandidatesFor(readings, At(e.source).unit), rows[At(e.source).unit])
  {
    var i :| 0 <= i < |done| && done[i] == e;
    CopyIsOne(readings, i, texts[readings[i].unit]);
  }

  lemma CopyIsOne(readings: seq<Reading>, i: nat, copy: Copy)
    requires Checked(readings, |readings|) && i < |readings| && Read(readings, |readings|, readings[i].unit, copy)
    ensures readings[i].sound && readings[i].copy == copy
  {
    var j :| 0 <= j < |readings| && IsCopy(readings[j], readings[i].unit, copy);
    assert SameUnit(readings[i], readings[j]);
  }

  // ---------------------------------------------------------------------
  // Read in place, the units are an exact cover
  // ---------------------------------------------------------------------

  lemma RowLength(h: Hashes, index: Index, done: seq<Entry>, readings: seq<Reading>, order: map<string, nat>,
                  texts: map<string, Copy>, rows: map<string, Row>, unit: string)
    requires Bound(h, index, done, readings, order, texts, rows) && unit in rows
    ensures 0 <= rows[unit].identity.start <= rows[unit].identity.end
    ensures |texts[unit].text| == rows[unit].identity.end - rows[unit].identity.start
  {
    var e := RowIsRead(h, index, done, readings, order, texts, rows, unit);
  }

  /** The row is declared piece `n` of its segment, at its declared place. */
  ghost predicate IsPiece(index: Index, rows: map<string, Row>, unit: string, n: nat)
    requires unit in rows
  {
    var s := rows[unit].identity.segment;
    && s in index.pieces && n < |index.pieces[s].pieces| && index.pieces[s].pieces[n].pieceId == unit
    && PieceInPlace(rows, s, index.pieces[s].pieces[n])
  }

  /** A row was read as the whole of its segment, or as one of its declared pieces. */
  lemma RowSource(h: Hashes, index: Index, done: seq<Entry>, readings: seq<Reading>, order: map<string, nat>,
                  texts: map<string, Copy>, rows: map<string, Row>, unit: string) returns (n: nat)
    requires Bound(h, index, done, readings, order, texts, rows) && unit in rows
    ensures var s := rows[unit].identity.segment;
            && s in index.coverage
            && if unit == s then index.coverage[s].textHash == h.text(texts[unit].text)
               else texts[unit].text != "" && IsPiece(index, rows, unit, n)
  {
    var e := RowIsRead(h, index, done, readings, order, texts, rows, unit);
    if e.source.piece.Some? {
      PieceIsNotSegment(e.source.segment, e.source.piece.value.index);
      var d := Declared(unit, At(e.source).start, At(e.source).end, e.source.sha);
      n :| 0 <= n < |index.pieces[e.source.segment].pieces| && index.pieces[e.source.segment].pieces[n] == d;
    } else {
      n := 0;
    }
  }

  lemma PieceIsNotSegment(segment: string, index: nat)
    ensures PieceName(segment, index) != segment
  {
    assert |PieceName(segment, index)| > |segment|;
  }

  /** In place, a row of a cut segment is one of its declared pieces. */
  lemma RowIsDeclared(h: Hashes, index: Index, done: seq<Entry>, readings: seq<Reading>, order: map<string, nat>,
                      texts: map<string, Copy>, rows: map<string, Row>, unit: string) returns (n: nat)
    requires Bound(h, index, done, readings, order, texts, rows) && RowsInPlace(index, rows)
    requires unit in rows && rows[unit].identity.segment in index.pieces
    ensures IsPiece(index, rows, unit, n)
  {
    var s := rows[unit].identity.segment;
    n := RowSource(h, index, done, readings, order, texts, rows, unit);
    if unit == s {
      n := ExpectedPiece(index, rows, unit);
    }
  }

  /** A unit expected as a piece is, in place, a piece of the segment it was read for. */
  lemma ExpectedPiece(index: Index, rows: map<string, Row>, unit: string) returns (n: nat)
    requires RowsInPlace(index, rows) && Expected(index, unit) && unit in rows && unit in index.pieces
    ensures IsPiece(index, rows, unit, n)
  {
    var r :| r in index.coverage && r in index.pieces && unit in PieceIds(index.pieces[r].pieces);
    var d :| d in index.pieces[r].pieces && d.pieceId == unit;
    n :| 0 <= n < |index.pieces[r].pieces| && index.pieces[r].pieces[n] == d;
    assert SegmentInPlace(index, rows, r);
    assert PieceInPlace(rows, r, index.pieces[r].pieces[n]);
  }

  /** Declared pieces that follow each other, and whose texts are as long as declared. */
  ghost predicate Tiled(texts: map<string, Copy>, pieces: seq<Declared>) {
    && Abut(pieces, texts, |pieces|)
    && forall n :: 0 <= n < |pieces| ==> 0 <= |texts[pieces[n].pieceId].text| == pieces[n].rawEnd - pieces[n].rawStart
  }

  /** The first `n` pieces end where `n` pieces of text end. */
  lemma {:induction false} PiecesTile(texts: map<string, Copy>, pieces: seq<Declared>, n: nat)
    requires Tiled(texts, pieces) && n <= |pieces|
    ensures |JoinedText(pieces, texts, n)| == Cursor(pieces, n)
  {
    if n > 0 {
      PiecesTile(texts, pieces, n - 1);
    }
  }

  lemma {:induction false} PieceAround(pieces: seq<Declared>, texts: map<string, Copy>, n: nat, k: int) returns (m: nat)
    requires n <= |pieces| && Abut(pieces, texts, n) && 0 <= k < Cursor(pieces, n)
    ensures m < n && pieces[m].rawStart <= k < pieces[m].rawEnd
  {
    if k < Cursor(pieces, n - 1) {
      m := PieceAround(pieces, texts, n - 1, k);
    } else {
      m := n - 1;
    }
  }

  lemma {:induction false} PiecesInOrder(texts: map<string, Copy>, pieces: seq<Declared>, i: nat, j: nat)
    requires Tiled(texts, pieces) && i < j < |pieces|
    ensures pieces[i].rawEnd <= pieces[j].rawStart
  {
    if i + 1 < j {
      PiecesInOrder(texts, pieces, i, j - 1);
      assert pieces[j].rawStart == Cursor(pieces, j);
    }
  }

  lemma OnePieceAround(texts: map<string, Copy>, pieces: seq<Declared>, m: nat, n: nat, k: int)
    requires Tiled(texts, pieces) && m < |pieces| && n < |pieces|
    requires pieces[m].rawStart <= k < pieces[m].rawEnd && pieces[n].rawStart <= k < pieces[n].rawEnd
    ensures m == n
  {
    if m < n {
      PiecesInOrder(texts, pieces, m, n);
    } else if n < m {
      PiecesInOrder(texts, pieces, n, m);
    }
  }

  lemma CutIsRebuilt(h: Hashes, index: Index, texts: map<string, Copy>, segment: string)
    requires SegmentsOk(h, index, index.coverage.Keys, texts) && segment in index.coverage && segment in index.pieces
    ensures Reconstructs(h, index.pieces[segment], index.coverage[segment].textHash, texts)
  {
  }

  lemma SegmentIsTiled(h: Hashes, index: Index, done: seq<Entry>, readings: seq<Reading>, order: map<string, nat>,
                       texts: map<string, Copy>, rows: map<string, Row>, segment: string)
    requires Bound(h, index, done, readings, order, texts, rows) && RowsInPlace(index, rows)
    requires segment in index.coverage && segment in index.pieces
    ensures Tiled(texts, index.pieces[segment].pieces)
  {
    var pieces := index.pieces[segment].pieces;
    CutIsRebuilt(h, index, texts, segment);
    assert SegmentInPlace(index, rows, segment);
    forall n | 0 <= n < |pieces|
      ensures |texts[pieces[n].pieceId].text| == pieces[n].rawEnd - pieces[n].rawStart
    {
      assert PieceInPlace(rows, segment, pieces[n]);
      RowLength(h, index, done, readings, order, texts, rows, pieces[n].pieceId);
    }
  }

  /** Every code point of a segment that was cut lies in exactly one unit. */
  lemma CutCover(h: Hashes, index: Index, done: seq<Entry>, readings: seq<Reading>, order: map<string, nat>,
                 texts: map<string, Copy>, rows: map<string, Row>, segment: string, t: string, k: nat) returns (unit: string)
    requires Injective(h) && Bound(h, index, done, readings, order, texts, rows) && RowsInPlace(index, rows)
    requires IsSegmentText(h, index, segment, t) && segment in index.pieces && k < |t|
    ensures OnlyUnit(rows, segment, k, unit)
  {
    var pieces := index.pieces[segment].pieces;
    SegmentIsTiled(h, index, done, readings, order, texts, rows, segment);
    PiecesTile(texts, pieces, |pieces|);
    CutIsRebuilt(h, index, texts, segment);
    assert t == JoinedText(pieces, texts, |pieces|);
    var m := PieceAround(pieces, texts, |pieces|, k);
    assert SegmentInPlace(index, rows, segment) && PieceInPlace(rows, segment, pieces[m]);
    unit := pieces[m].pieceId;
    forall v | v in rows && Covers(rows[v], segment, k)
      ensures v == unit
    {
      var n := RowIsDeclared(h, index, done, readings, order, texts, rows, v);
      OnePieceAround(texts, pieces, m, n, k);
    }
  }

  /** And so does every code point of a segment that was not cut. */
  lemma WholeCover(h: Hashes, index: Index, done: seq<Entry>, readings: seq<Reading>, order: map<string, nat>,
                   texts: map<string, Copy>, rows: map<string, Row>, segment: string, t: string, k: nat)
    requires Injective(h) && Bound(h, index, done, readings, order, texts, rows) && RowsInPlace(index, rows)
    requires IsSegmentText(h, index, segment, t) && segment !in index.pieces && k < |t|
    ensures OnlyUnit(rows, segment, k, segment)
  {
    assert SegmentInPlace(index, rows, segment);
    var e := RowIsRead(h, index, done, readings, order, texts, rows, segment);
    forall v | v in rows && Covers(rows[v], segment, k)
      ensures v == segment
    {
      var n := RowSource(h, index, done, readings, order, texts, rows, v);
    }
  }

  lemma RowsInPlaceCover(h: Hashes, index: Index, done: seq<Entry>, readings: seq<Reading>, order: map<string, nat>,
                         texts: map<string, Copy>, rows: map<string, Row>)
    requires Injective(h) && Bound(h, index, done, readings, order, texts, rows) && RowsInPlace(index, rows)
    ensures IsExactCover(h, index, rows)
  {
    forall segment, t, k | IsSegmentText(h, index, segment, t) && 0 <= k < |t|
      ensures InOneUnit(rows, segment, k)
    {
      if segment in index.pieces {
        var unit := CutCover(h, index, done, readings, order, texts, rows, segment, t, k);
      } else {
        WholeCover(h, index, done, readings, order, texts, rows, segment, t, k);
      }
    }
  }

  // ---------------------------------------------------------------------
  // Rows lie where their sources lie
  // ---------------------------------------------------------------------

  lemma {:induction false} RowInPlace(h: Hashes, index: Index, jobs: seq<Placed>, readings: seq<Reading>,
                                      order: map<string, nat>,
                   texts: map<string, Copy>, rows: map<string, Row>, segment: string)
    requires Bound(h, index, Entries(jobs, |jobs|), readings, order, texts, rows)
    requires ReadInPlace(index, jobs) && segment in index.coverage
    ensures SegmentInPlace(index, rows, segment)
  {
    var done := Entries(jobs, |jobs|);
    if segment in index.pieces {
      var pieces := index.pieces[segment].pieces;
      forall n | 0 <= n < |pieces|
        ensures PieceInPlace(rows, segment, pieces[n])
      {
        assert Expected(index, pieces[n].pieceId) by {
          assert pieces[n] in pieces;
        }
        var e := RowIsRead(h, index, done, readings, order, texts, rows, pieces[n].pieceId);
        assert SourceInPlace(index, e, segment) && IsDeclaredPiece(e, segment, pieces[n]);
      }
    } else {
      assert Expected(index, segment);
      var e := RowIsRead(h, index, done, readings, order, texts, rows, segment);
      assert SourceInPlace(index, e, segment);
    }
  }

  lemma EntryInPlace(h: Hashes, index: Index, done: seq<Entry>, readings: seq<Reading>, order: map<string, nat>,
                     texts: map<string, Copy>, rows: map<string, Row>, e: Entry, segment: string)
    requires Bound(h, index, done, readings, order, texts, rows) && e in done
    requires segment in index.coverage && SegmentInPlace(index, rows, segment)
    ensures SourceInPlace(index, e, segment)
  {
    EntryIsChecked(h, index, done, readings, order, texts, rows, e);
    if segment in index.pieces {
      forall n | 0 <= n < |index.pieces[segment].pieces|
        ensures IsDeclaredPiece(e, segment, index.pieces[segment].pieces[n])
      {
        assert PieceInPlace(rows, segment, index.pieces[segment].pieces[n]);
      }
    }
  }

  /** The rows of an accepted build are in place, and in pieces, exactly when the frozen sources are. */
  lemma {:induction false} RowsAreAsRead(h: Hashes, index: Index, jobs: seq<Placed>, readings: seq<Reading>,
                                         order: map<string, nat>,
                      texts: map<string, Copy>, rows: map<string, Row>)
    requires Bound(h, index, Entries(jobs, |jobs|), readings, order, texts, rows)
    ensures ReadInPlace(index, jobs) <==> RowsInPlace(index, rows)
    ensures CutsReadInPieces(index, jobs) <==> RowsInPieces(index, rows)
  {
    var done := Entries(jobs, |jobs|);
    if ReadInPlace(index, jobs) {
      forall segment | segment in index.coverage
        ensures SegmentInPlace(index, rows, segment)
      {
        RowInPlace(h, index, jobs, readings, order, texts, rows, segment);
      }
    }
    if RowsInPlace(index, rows) {
      forall e, segment | e in done && segment in index.coverage
        ensures SourceInPlace(index, e, segment)
      {
        EntryInPlace(h, index, done, readings, order, texts, rows, e, segment);
      }
    }
    PiecesAreAsRead(h, index, jobs, readings, order, texts, rows);
  }

  lemma {:induction false} PiecesAreAsRead(h: Hashes, index: Index, jobs: seq<Placed>, readings: seq<Reading>,
                                           order: map<string, nat>,
                        texts: map<string, Copy>, rows: map<string, Row>)
    requires Bound(h, index, Entries(jobs, |jobs|), readings, order, texts, rows)
    ensures CutsReadInPieces(index, jobs) <==> RowsInPieces(index, rows)
  {
    var done := Entries(jobs, |jobs|);
    forall e | e in done
      ensures At(e.source).unit in rows
    {
      EntryIsChecked(h, index, done, readings, order, texts, rows, e);
    }
    forall unit | unit in rows
      ensures exists e :: e in done && At(e.source).unit == unit
    {
      var e := RowIsRead(h, index, done, readings, order, texts, rows, unit);
    }
  }

  /** Where every frozen source is read in place, the units of an accepted build are an exact cover. */
  lemma InPlaceCovers(h: Hashes, index: Index, jobs: seq<Placed>, order: map<string, nat>, rows: map<string, Row>)
    requires Injective(h) && Admissible(h, index, jobs) && Built(h, index, jobs, order, rows) && ReadInPlace(index, jobs)
    ensures IsExactCover(h, index, rows)
  {
    BuiltIsBound(h, index, jobs, order, rows);
    var done, readings, texts := Entries(jobs, |jobs|), AllRead(h, index, jobs), TextsOf(h, index, jobs);
    RowsAreAsRead(h, index, jobs, readings, order, texts, rows);
    RowsInPlaceCover(h, index, done, readings, order, texts, rows);
  }

  // ---------------------------------------------------------------------
  // And an exact cover is read in place
  // ---------------------------------------------------------------------

  /** Every segment has a text, and not an empty one. */
  ghost predicate HaveText(h: Hashes, index: Index) {
    forall segment :: segment in index.coverage ==> HasText(h, index, segment)
  }

  ghost predicate HasText(h: Hashes, index: Index, segment: string) {
    exists t :: IsSegmentText(h, index, segment, t) && t != ""
  }

  /** No unit goes by the name of a segment that was cut. */
  ghost predicate RowsInPieces(index: Index, rows: map<string, Row>) {
    forall segment :: segment in index.coverage && segment in index.pieces ==> segment !in rows
  }

  lemma RowHasText(h: Hashes, index: Index, done: seq<Entry>, readings: seq<Reading>, order: map<string, nat>,
                   texts: map<string, Copy>, rows: map<string, Row>, unit: string)
    requires Injective(h) && Bound(h, index, done, readings, order, texts, rows) && HaveText(h, index) && unit in rows
    ensures texts[unit].text != ""
  {
    var n := RowSource(h, index, done, readings, order, texts, rows, unit);
    var t := TextOf(h, index, rows[unit].identity.segment);
  }

  lemma TextOf(h: Hashes, index: Index, segment: string) returns (t: string)
    requires HaveText(h, index) && segment in index.coverage
    ensures IsSegmentText(h, index, segment, t) && t != ""
  {
    assert HasText(h, index, segment);
    t :| IsSegmentText(h, index, segment, t) && t != "";
  }

  /** The code points below `size` that the rows of the first `n` pieces cover. */
  ghost function Spots(rows: map<string, Row>, segment: string, pieces: seq<Declared>, n: nat, size: nat): set<int>
    requires n <= |pieces|
  {
    if n == 0 then {} else Spots(rows, segment, pieces, n - 1, size) + SpotsOf(rows, segment, pieces[n - 1].pieceId, size)
  }

  ghost function SpotsOf(rows: map<string, Row>, segment: string, unit: string, size: nat): set<int> {
    set k | 0 <= k < size && unit in rows && Covers(rows[unit], segment, k)
  }

  lemma {:induction false} IntervalFits(s: set<int>, low: int, high: int)
    requires low <= high && forall k :: k in s ==> low <= k < high
    ensures |s| <= high - low
    decreases high - low
  {
    if low == high {
      assert s == {};
    } else {
      IntervalFits(s - {high - 1}, low, high - 1);
      assert |s| <= |s - {high - 1}| + 1 by {
        assert s <= (s - {high - 1}) + {high - 1};
        SubsetFits(s, (s - {high - 1}) + {high - 1});
      }
    }
  }

  lemma {:induction false} SpotsStay(rows: map<string, Row>, segment: string, pieces: seq<Declared>, m: nat, n: nat,
                                     size: nat)
    requires m < n <= |pieces|
    ensures SpotsOf(rows, segment, pieces[m].pieceId, size) <= Spots(rows, segment, pieces, n, size)
  {
    if m < n - 1 {
      SpotsStay(rows, segment, pieces, m, n - 1, size);
    }
  }

  /** The piece was read for another segment, or is a piece declared before. */
  ghost predicate Misplaced(rows: map<string, Row>, segment: string, pieces: seq<Declared>, m: nat)
    requires m < |pieces|
  {
    || pieces[m].pieceId !in rows || rows[pieces[m].pieceId].identity.segment != segment
    || exists i :: 0 <= i < m && pieces[i].pieceId == pieces[m].pieceId
  }

  ghost predicate AnyMisplaced(rows: map<string, Row>, segment: string, pieces: seq<Declared>, n: nat)
    requires n <= |pieces|
  {
    exists m :: 0 <= m < n && Misplaced(rows, segment, pieces, m)
  }

  /** Every piece was read, and its row is as long as its text. */
  ghost predicate Measured(rows: map<string, Row>, texts: map<string, Copy>, pieces: seq<Declared>) {
    forall m :: 0 <= m < |pieces| ==>
      && pieces[m].pieceId in rows && pieces[m].pieceId in texts
      && 0 < |texts[pieces[m].pieceId].text| == rows[pieces[m].pieceId].identity.end - rows[pieces[m].pieceId].identity.start
  }

  lemma SpotsOfFit(rows: map<string, Row>, segment: string, unit: string, size: nat, length: nat)
    requires unit in rows && rows[unit].identity.end - rows[unit].identity.start == length
    ensures |SpotsOf(rows, segment, unit, size)| <= length
  {
    IntervalFits(SpotsOf(rows, segment, unit, size), rows[unit].identity.start, rows[unit].identity.end);
  }

  lemma MisplacedAddsNothing(rows: map<string, Row>, segment: string, pieces: seq<Declared>, m: nat, size: nat)
    requires m < |pieces| && Misplaced(rows, segment, pieces, m)
    ensures Spots(rows, segment, pieces, m + 1, size) == Spots(rows, segment, pieces, m, size)
  {
    if i :| 0 <= i < m && pieces[i].pieceId == pieces[m].pieceId {
      SpotsStay(rows, segment, pieces, i, m, size);
    } else {
      assert SpotsOf(rows, segment, pieces[m].pieceId, size) == {};
    }
  }

  /** Pieces cover no more than their texts are long, and less if one of them is misplaced. */
  lemma {:induction false} SpotsFit(rows: map<string, Row>, texts: map<string, Copy>, segment: string,
                                    pieces: seq<Declared>,
                                    n: nat, size: nat)
    requires n <= |pieces| && Measured(rows, texts, pieces)
    ensures |Spots(rows, segment, pieces, n, size)| <= |JoinedText(pieces, texts, n)|
    ensures AnyMisplaced(rows, segment, pieces, n) ==>
              |Spots(rows, segment, pieces, n, size)| < |JoinedText(pieces, texts, n)|
  {
    if n > 0 {
      SpotsFit(rows, texts, segment, pieces, n - 1, size);
      var before, unit := Spots(rows, segment, pieces, n - 1, size), pieces[n - 1].pieceId;
      SpotsOfFit(rows, segment, unit, size, |texts[unit].text|);
      assert |before + SpotsOf(rows, segment, unit, size)| <= |before| + |SpotsOf(rows, segment, unit, size)|;
      if Misplaced(rows, segment, pieces, n - 1) {
        MisplacedAddsNothing(rows, segment, pieces, n - 1, size);
      }
    }
  }

  ghost function Below(n: nat): (all: set<int>)
    ensures |all| == n && forall k :: k in all <==> 0 <= k < n
  {
    if n == 0 then {} else Below(n - 1) + {n - 1}
  }

  /** Under an exact cover the pieces of a cut segment leave no code point out. */
  lemma {:induction false} SpotCovered(h: Hashes, index: Index, done: seq<Entry>, readings: seq<Reading>,
                                       order: map<string, nat>,
                    texts: map<string, Copy>, rows: map<string, Row>, segment: string, k: nat, size: nat)
    requires Bound(h, index, done, readings, order, texts, rows) && RowsInPieces(index, rows)
    requires segment in index.coverage && segment in index.pieces && k < size && InOneUnit(rows, segment, k)
    ensures var pieces := index.pieces[segment].pieces; k in Spots(rows, segment, pieces, |pieces|, size)
  {
    var pieces := index.pieces[segment].pieces;
    var unit :| OnlyUnit(rows, segment, k, unit);
    var n := RowSource(h, index, done, readings, order, texts, rows, unit);
    SpotsStay(rows, segment, pieces, n, |pieces|, size);
    assert k in SpotsOf(rows, segment, unit, size);
  }

  lemma AllSpots(all: set<int>, size: nat)
    requires forall k :: 0 <= k < size ==> k in all
    ensures size <= |all|
  {
    SubsetFits(Below(size), all);
  }

  lemma {:induction false} CoverSpots(h: Hashes, index: Index, done: seq<Entry>, readings: seq<Reading>,
                                      order: map<string, nat>,
                   texts: map<string, Copy>, rows: map<string, Row>, segment: string, t: string)
    requires Bound(h, index, done, readings, order, texts, rows) && RowsInPieces(index, rows)
    requires IsSegmentText(h, index, segment, t) && segment in index.pieces && IsExactCover(h, index, rows)
    ensures var pieces := index.pieces[segment].pieces; |t| <= |Spots(rows, segment, pieces, |pieces|, |t|)|
  {
    var pieces := index.pieces[segment].pieces;
    forall k | 0 <= k < |t|
      ensures k in Spots(rows, segment, pieces, |pieces|, |t|)
    {
      SpotCovered(h, index, done, readings, order, texts, rows, segment, k, |t|);
    }
    AllSpots(Spots(rows, segment, pieces, |pieces|, |t|), |t|);
  }

  lemma {:induction false} PiecesAreRead(h: Hashes, index: Index, done: seq<Entry>, readings: seq<Reading>,
                                         order: map<string, nat>,
                      texts: map<string, Copy>, rows: map<string, Row>, segment: string)
    requires Bound(h, index, done, readings, order, texts, rows) && segment in index.coverage && segment in index.pieces
    ensures forall d :: d in index.pieces[segment].pieces ==> d.pieceId in rows && d.pieceId in texts
    ensures IsSegmentText(h, index, segment, JoinedText(index.pieces[segment].pieces, texts, |index.pieces[segment].pieces|))
  {
    CutIsRebuilt(h, index, texts, segment);
  }

  lemma AllMeasured(h: Hashes, index: Index, done: seq<Entry>, readings: seq<Reading>, order: map<string, nat>,
                    texts: map<string, Copy>, rows: map<string, Row>, pieces: seq<Declared>)
    requires Injective(h) && Bound(h, index, done, readings, order, texts, rows) && HaveText(h, index)
    requires forall d :: d in pieces ==> d.pieceId in rows && d.pieceId in texts
    ensures Measured(rows, texts, pieces)
  {
    forall d | d in pieces
      ensures 0 < |texts[d.pieceId].text| == rows[d.pieceId].identity.end - rows[d.pieceId].identity.start
    {
      RowHasText(h, index, done, readings, order, texts, rows, d.pieceId);
      RowLength(h, index, done, readings, order, texts, rows, d.pieceId);
    }
  }

  /** So none of them is misplaced. */
  lemma NoneMisplaced(h: Hashes, index: Index, done: seq<Entry>, readings: seq<Reading>, order: map<string, nat>,
                      texts: map<string, Copy>, rows: map<string, Row>, segment: string)
    requires Injective(h) && Bound(h, index, done, readings, order, texts, rows)
    requires HaveText(h, index) && RowsInPieces(index, rows) && IsExactCover(h, index, rows)
    requires segment in index.coverage && segment in index.pieces
    ensures var pieces := index.pieces[segment].pieces; !AnyMisplaced(rows, segment, pieces, |pieces|)
  {
    var pieces := index.pieces[segment].pieces;
    var t := JoinedText(pieces, texts, |pieces|);
    PiecesAreRead(h, index, done, readings, order, texts, rows, segment);
    AllMeasured(h, index, done, readings, order, texts, rows, pieces);
    CoverSpots(h, index, done, readings, order, texts, rows, segment, t);
    SpotsFit(rows, texts, segment, pieces, |pieces|, |t|);
  }

  lemma WellPlaced(index: Index, rows: map<string, Row>, segment: string, n: nat, m: nat)
    requires segment in index.pieces && n < |index.pieces[segment].pieces|
    requires !AnyMisplaced(rows, segment, index.pieces[segment].pieces, |index.pieces[segment].pieces|)
    requires var unit := index.pieces[segment].pieces[n].pieceId; unit in rows ==> IsPiece(index, rows, unit, m)
    ensures PieceInPlace(rows, segment, index.pieces[segment].pieces[n])
  {
    var pieces := index.pieces[segment].pieces;
    assert !Misplaced(rows, segment, pieces, n);
    assert !Misplaced(rows, segment, pieces, m);
  }

  lemma CutInPlace(h: Hashes, index: Index, done: seq<Entry>, readings: seq<Reading>, order: map<string, nat>,
                   texts: map<string, Copy>, rows: map<string, Row>, segment: string, n: nat)
    requires Bound(h, index, done, readings, order, texts, rows) && RowsInPieces(index, rows)
    requires segment in index.coverage && segment in index.pieces && n < |index.pieces[segment].pieces|
    requires !AnyMisplaced(rows, segment, index.pieces[segment].pieces, |index.pieces[segment].pieces|)
    ensures PieceInPlace(rows, segment, index.pieces[segment].pieces[n])
  {
    assert !Misplaced(rows, segment, index.pieces[segment].pieces, n);
    var m := RowSource(h, index, done, readings, order, texts, rows, index.pieces[segment].pieces[n].pieceId);
    WellPlaced(index, rows, segment, n, m);
  }

  lemma UncutInPlace(h: Hashes, index: Index, done: seq<Entry>, readings: seq<Reading>, order: map<string, nat>,
                     texts: map<string, Copy>, rows: map<string, Row>, segment: string)
    requires Bound(h, index, done, readings, order, texts, rows) && HaveText(h, index) && IsExactCover(h, index, rows)
    requires segment in index.coverage && segment !in index.pieces
    ensures SegmentInPlace(index, rows, segment)
  {
    var t := TextOf(h, index, segment);
    assert InOneUnit(rows, segment, 0);
    var unit :| OnlyUnit(rows, segment, 0, unit);
    var n := RowSource(h, index, done, readings, order, texts, rows, unit);
  }

  lemma CoverIsInPlace(h: Hashes, index: Index, done: seq<Entry>, readings: seq<Reading>, order: map<string, nat>,
                       texts: map<string, Copy>, rows: map<string, Row>)
    requires Injective(h) && Bound(h, index, done, readings, order, texts, rows)
    requires HaveText(h, index) && RowsInPieces(index, rows) && IsExactCover(h, index, rows)
    ensures RowsInPlace(index, rows)
  {
    forall segment | segment in index.coverage
      ensures SegmentInPlace(index, rows, segment)
    {
      if segment in index.pieces {
        NoneMisplaced(h, index, done, readings, order, texts, rows, segment);
        forall n | 0 <= n < |index.pieces[segment].pieces|
          ensures PieceInPlace(rows, segment, index.pieces[segment].pieces[n])
        {
          CutInPlace(h, index, done, readings, order, texts, rows, segment, n);
        }
      } else {
        UncutInPlace(h, index, done, readings, order, texts, rows, segment);
      }
    }
  }

  /** An accepted build is an exact cover if and only if every frozen source is read in place. */
  lemma ExactCoverIffInPlace(h: Hashes, index: Index, jobs: seq<Placed>, order: map<string, nat>, rows: map<string, Row>)
    requires Injective(h) && Admissible(h, index, jobs) && Built(h, index, jobs, order, rows)
    requires HaveText(h, index) && CutsReadInPieces(index, jobs)
    ensures IsExactCover(h, index, rows) <==> ReadInPlace(index, jobs)
  {
    BuiltIsBound(h, index, jobs, order, rows);
    var done, readings, texts := Entries(jobs, |jobs|), AllRead(h, index, jobs), TextsOf(h, index, jobs);
    RowsAreAsRead(h, index, jobs, readings, order, texts, rows);
    if ReadInPlace(index, jobs) {
      RowsInPlaceCover(h, index, done, readings, order, texts, rows);
    } else if IsExactCover(h, index, rows) {
      CoverIsInPlace(h, index, done, readings, order, texts, rows);
    }
  }

  // ---------------------------------------------------------------------
  // Names that keep every unit in place
  // ---------------------------------------------------------------------

  /** Piece identifiers are names of pieces of their own segment, each once, and no segment has such a name. */
  ghost predicate WellNamed(index: Index) {
    && (forall s, p :: s in index.pieces && p in index.pieces[s].pieces ==> exists i: nat :: p.pieceId == PieceName(s, i))
    && (forall s, s', i: nat :: s in index.coverage && s' in index.pieces ==> s != PieceName(s', i))
    && (forall s :: s in index.pieces ==> DistinctIds(index.pieces[s].pieces))
  }

  ghost predicate DistinctIds(pieces: seq<Declared>) {
    forall i, j :: 0 <= i < j < |pieces| ==> pieces[i].pieceId != pieces[j].pieceId
  }

  lemma DeclaredName(index: Index, segment: string, n: nat) returns (i: nat)
    requires WellNamed(index) && segment in index.pieces && n < |index.pieces[segment].pieces|
    ensures index.pieces[segment].pieces[n].pieceId == PieceName(segment, i)
    ensures index.pieces[segment].pieces[n].pieceId !in index.coverage
  {
    var declared := index.pieces[segment].pieces[n];
    assert declared in index.pieces[segment].pieces;
    i :| declared.pieceId == PieceName(segment, i);
  }

  lemma NamedPieceInPlace(h: Hashes, index: Index, done: seq<Entry>, readings: seq<Reading>, order: map<string, nat>,
                          texts: map<string, Copy>, rows: map<string, Row>, segment: string, n: nat)
    requires Bound(h, index, done, readings, order, texts, rows) && WellNamed(index)
    requires segment in index.coverage && segment in index.pieces && n < |index.pieces[segment].pieces|
    ensures PieceInPlace(rows, segment, index.pieces[segment].pieces[n])
  {
    var d := index.pieces[segment].pieces[n];
    assert d in index.pieces[segment].pieces;
    assert Expected(index, d.pieceId);
    var i := DeclaredName(index, segment, n);
    var m := RowSource(h, index, done, readings, order, texts, rows, d.pieceId);
    var s := rows[d.pieceId].identity.segment;
    var j := DeclaredName(index, s, m);
    PieceNameTellsSegment(segment, i, s, j);
    SameIds(index.pieces[segment].pieces, m, n);
  }

  lemma SameIds(pieces: seq<Declared>, m: nat, n: nat)
    requires DistinctIds(pieces) && m < |pieces| && n < |pieces| && pieces[m].pieceId == pieces[n].pieceId
    ensures m == n
  {
  }

  lemma NamedSegmentInPlace(h: Hashes, index: Index, done: seq<Entry>, readings: seq<Reading>, order: map<string, nat>,
                            texts: map<string, Copy>, rows: map<string, Row>, segment: string)
    requires Bound(h, index, done, readings, order, texts, rows) && WellNamed(index) && segment in index.coverage
    ensures SegmentInPlace(index, rows, segment)
  {
    if segment in index.pieces {
      forall n | 0 <= n < |index.pieces[segment].pieces|
        ensures PieceInPlace(rows, segment, index.pieces[segment].pieces[n])
      {
        NamedPieceInPlace(h, index, done, readings, order, texts, rows, segment, n);
      }
    } else {
      assert Expected(index, segment);
      var m := RowSource(h, index, done, readings, order, texts, rows, segment);
      if rows[segment].identity.segment != segment {
        var i := DeclaredName(index, rows[segment].identity.segment, m);
      }
    }
  }

  /** Frozen files whose names are in order are always read in place. */
  lemma WellNamedInPlace(h: Hashes, index: Index, jobs: seq<Placed>, order: map<string, nat>, rows: map<string, Row>)
    requires Admissible(h, index, jobs) && Built(h, index, jobs, order, rows) && WellNamed(index)
    ensures ReadInPlace(index, jobs)
  {
    BuiltIsBound(h, index, jobs, order, rows);
    var done, readings, texts := Entries(jobs, |jobs|), AllRead(h, index, jobs), TextsOf(h, index, jobs);
    forall segment | segment in index.coverage
      ensures SegmentInPlace(index, rows, segment)
    {
      NamedSegmentInPlace(h, index, done, readings, order, texts, rows, segment);
    }
    RowsAreAsRead(h, index, jobs, readings, order, texts, rows);
  }
}
