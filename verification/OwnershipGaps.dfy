/**
 Frozen files an ownership build accepts though what it is for does not hold of
 them: a segment that no unit covers, a source that is owned twice, and a job the
 index refuses. Each is a single job in a single tile, all of whose sources are
 copies of one unit.
 */
module OwnershipGaps {
  import opened Wrappers
  import opened Sorting
  import opened Ownership
  import opened ExactCover
  import opened OwnershipIndex

  // ---------------------------------------------------------------------
  // One job, one unit
  // ---------------------------------------------------------------------

  /** One job in one tile, all of whose sources are sound and the same copy of one unit. */
  ghost predicate OneTile(h: Hashes, index: Index, jobs: seq<Placed>, unit: string, copy: Copy) {
    && |jobs| == 1 && jobs[0].job.sources != []
    && index.tiles == [Tile(jobs[0].job.id, h.pretty(jobs[0].job), Observed(jobs[0].job.sources))]
    && forall s :: s in jobs[0].job.sources ==>
         SourceOk(h, index, jobs[0].job.id, s) && At(s).unit == unit && CopyOf(s) == copy
  }

  ghost predicate AllCopies(readings: seq<Reading>, unit: string, copy: Copy) {
    readings != [] && forall i :: 0 <= i < |readings| ==> readings[i].sound && IsCopy(readings[i], unit, copy)
  }

  lemma {:induction false} OneUnitRead(h: Hashes, index: Index, jobs: seq<Placed>, unit: string, copy: Copy)
    requires OneTile(h, index, jobs, unit, copy)
    ensures AllCopies(AllRead(h, index, jobs), unit, copy)
  {
    var placed := jobs[0];
    var entries := JobEntries(placed, |placed.job.sources|);
    assert Entries(jobs, 0) == [];
    assert Entries(jobs, 1) == entries;
  }

  lemma {:induction false} CopiesRead(readings: seq<Reading>, unit: string, copy: Copy, n: nat)
    requires AllCopies(readings, unit, copy) && n <= |readings|
    ensures n > 0 ==> TextsTo(readings, n) == map[unit := copy]
  {
    if n > 1 {
      CopiesRead(readings, unit, copy, n - 1);
    }
  }

  lemma {:induction false} CopiesAgree(readings: seq<Reading>, unit: string, copy: Copy)
    requires AllCopies(readings, unit, copy)
    ensures Checked(readings, |readings|) && TextsTo(readings, |readings|) == map[unit := copy]
    ensures CandidatesFor(readings, unit) != []
  {
    CopiesRead(readings, unit, copy, |readings|);
    SameUnits(readings, |readings|);
  }

  lemma {:induction false} OneJobOk(h: Hashes, index: Index, jobs: seq<Placed>, unit: string, copy: Copy,
                                    order: map<string, nat>)
    requires OneTile(h, index, jobs, unit, copy) && IsTileOrder(index.tiles, order)
    ensures JobsOk(h, index.tiles, order, jobs, |jobs|)
  {
    assert index.tiles[0].jobId == jobs[0].job.id;
    assert JobsOk(h, index.tiles, order, jobs, 0);
  }

  lemma OneTileOrder(tiles: seq<Tile>)
    requires |tiles| == 1
    ensures IsTileOrder(tiles, map[tiles[0].jobId := 0])
  {
  }

  lemma {:induction false} OneTileAdmissible(h: Hashes, index: Index, jobs: seq<Placed>, unit: string, copy: Copy)
    requires OneTile(h, index, jobs, unit, copy) && Settled(h, index, jobs, map[unit := copy])
    ensures Admissible(h, index, jobs)
  {
    OneUnitRead(h, index, jobs, unit, copy);
    CopiesAgree(AllRead(h, index, jobs), unit, copy);
    forall order | IsTileOrder(index.tiles, order)
      ensures JobsOk(h, index.tiles, order, jobs, |jobs|)
    {
      OneJobOk(h, index, jobs, unit, copy, order);
    }
  }

  lemma {:induction false} SoleRow(readings: seq<Reading>, order: map<string, nat>, unit: string, copy: Copy)
    returns (rows: map<string, Row>)
    requires AllCopies(readings, unit, copy)
    ensures RowsFor(readings, order, rows) && rows.Keys == {unit} && rows[unit].identity == copy.identity
  {
    CopiesAgree(readings, unit, copy);
    var candidates := CandidatesFor(readings, unit);
    RowIsRanked(order, candidates, copy);
    rows := map[unit := RowOf(order, candidates, copy)];
  }

  /** An accepted build of it has the one row. */
  lemma {:induction false} OneTileBuilt(h: Hashes, index: Index, jobs: seq<Placed>, unit: string, copy: Copy)
    returns (order: map<string, nat>, rows: map<string, Row>)
    requires OneTile(h, index, jobs, unit, copy) && Settled(h, index, jobs, map[unit := copy])
    ensures Admissible(h, index, jobs) && Built(h, index, jobs, order, rows)
    ensures rows.Keys == {unit} && rows[unit].identity == copy.identity
  {
    OneTileAdmissible(h, index, jobs, unit, copy);
    OneTileOrder(index.tiles);
    OneUnitRead(h, index, jobs, unit, copy);
    order := map[index.tiles[0].jobId := 0];
    rows := SoleRow(AllRead(h, index, jobs), order, unit, copy);
  }

  // ---------------------------------------------------------------------
  // The files
  // ---------------------------------------------------------------------

  /** Segment "B", read whole. */
  function WholeSource(h: Hashes, id: string): Source {
    Source(id, "x", h.text("x"), "edition", "ref", "B", true, None)
  }

  function OneJob(h: Hashes, ids: seq<string>): Job {
    Job("job", seq(|ids|, i requires 0 <= i < |ids| => WholeSource(h, ids[i])))
  }

  /** A job that reads segment "B" once under each of the identifiers; `pieces` are the declared cuts. */
  function FilesFor(h: Hashes, ids: seq<string>, segments: set<string>, pieces: map<string, Declaration>): Index {
    Index([Tile("job", h.pretty(OneJob(h, ids)), Observed(OneJob(h, ids).sources))],
          map s | s in segments :: Coverage(h.text("x"), "ref", {TileJob("job", Focal, "B")}),
          pieces)
  }

  lemma FilesAreOneTile(h: Hashes, ids: seq<string>, segments: set<string>, pieces: map<string, Declaration>)
    returns (copy: Copy)
    requires ids != [] && "B" in segments
    ensures OneTile(h, FilesFor(h, ids, segments, pieces), [Placed("shard", OneJob(h, ids))], "B", copy)
    ensures copy.identity.segment == "B" && copy.text == "x"
  {
    copy := CopyOf(WholeSource(h, ids[0]));
    var index := FilesFor(h, ids, segments, pieces);
    forall s | s in OneJob(h, ids).sources
      ensures SourceOk(h, index, "job", s) && At(s).unit == "B" && CopyOf(s) == copy
    {
      var i :| 0 <= i < |ids| && s == WholeSource(h, ids[i]);
    }
  }

  lemma WholeIsSettled(h: Hashes, ids: seq<string>, jobs: seq<Placed>, copy: Copy)
    requires jobs == [Placed("shard", OneJob(h, ids))]
    ensures Settled(h, FilesFor(h, ids, {"B"}, map[]), jobs, map["B" := copy])
  {
    var index := FilesFor(h, ids, {"B"}, map[]);
    assert JobIds(jobs, 0) == {};
    assert JobIds(jobs, 1) == {"job"};
    assert forall unit :: Expected(index, unit) <==> unit == "B";
  }

  lemma WholeFiles(h: Hashes, ids: seq<string>) returns (index: Index, jobs: seq<Placed>, copy: Copy)
    requires ids != []
    ensures OneTile(h, index, jobs, "B", copy) && Settled(h, index, jobs, map["B" := copy])
    ensures |jobs| == 1 && jobs[0].job == OneJob(h, ids)
  {
    index, jobs := FilesFor(h, ids, {"B"}, map[]), [Placed("shard", OneJob(h, ids))];
    copy := FilesAreOneTile(h, ids, {"B"}, map[]);
    WholeIsSettled(h, ids, jobs, copy);
  }

  /** An accepted build of a job that reads segment "B" under each of the identifiers. */
  lemma WholeBuilt(h: Hashes, ids: seq<string>)
    returns (index: Index, jobs: seq<Placed>, order: map<string, nat>, rows: map<string, Row>)
    requires ids != []
    ensures Admissible(h, index, jobs) && Built(h, index, jobs, order, rows) && "B" in rows
    ensures SoleJob(h, rows, jobs, OneJob(h, ids))
  {
    var copy;
    index, jobs, copy := WholeFiles(h, ids);
    order, rows := OneTileBuilt(h, index, jobs, "B", copy);
    FirstJobAccepted(h, index, jobs, order, rows);
    SoleJobOwns(h, index, jobs, order, rows, "B");
  }

  /** The only job: it owns segment "B", and is resolved if it does not read a unit under two identifiers. */
  ghost predicate SoleJob(h: Hashes, rows: map<string, Row>, jobs: seq<Placed>, job: Job) {
    && |jobs| == 1 && jobs[0].job == job
    && (AcceptsJob(h, rows, job) <==> OneIdPerUnit(job))
    && "B" in rows && job.id == rows["B"].owner.jobId
  }

  lemma FirstJobAccepted(h: Hashes, index: Index, jobs: seq<Placed>, order: map<string, nat>, rows: map<string, Row>)
    requires Admissible(h, index, jobs) && Built(h, index, jobs, order, rows) && jobs != []
    ensures AcceptsJob(h, rows, jobs[0].job) <==> OneIdPerUnit(jobs[0].job)
  {
    FrozenJobAccepted(h, index, jobs, order, rows, 0);
  }

  lemma SoleJobOwns(h: Hashes, index: Index, jobs: seq<Placed>, order: map<string, nat>, rows: map<string, Row>,
                    unit: string)
    requires Admissible(h, index, jobs) && Built(h, index, jobs, order, rows) && unit in rows && |jobs| == 1
    ensures jobs[0].job.id == rows[unit].owner.jobId
  {
    BuiltIsBound(h, index, jobs, order, rows);
    AdmittedJobs(h, index, jobs, order);
    var m, k := OwnerJob(h, index, jobs, AllRead(h, index, jobs), order, rows[unit], unit);
  }

  // ---------------------------------------------------------------------
  // What is wrong with them
  // ---------------------------------------------------------------------

  function BorrowedPieces(h: Hashes): map<string, Declaration> {
    map["A" := Declaration(1, h.text("x"), [Declared("B", 0, 1, h.text("x"))])]
  }

  lemma BorrowedIsSettled(h: Hashes, jobs: seq<Placed>, copy: Copy)
    requires copy.text == "x" && jobs == [Placed("shard", OneJob(h, ["source"]))]
    ensures Settled(h, FilesFor(h, ["source"], {"A", "B"}, BorrowedPieces(h)), jobs, map["B" := copy])
  {
    var index, texts := FilesFor(h, ["source"], {"A", "B"}, BorrowedPieces(h)), map["B" := copy];
    var pieces := index.pieces["A"].pieces;
    assert JoinedText(pieces, texts, 0) == "";
    assert JoinedText(pieces, texts, 1) == "x";
    assert JobIds(jobs, 0) == {};
    assert JobIds(jobs, 1) == {"job"};
    assert "B" in index.coverage && "B" !in index.pieces;
    forall unit | Expected(index, unit)
      ensures unit == "B"
    {
      if s :| s in index.coverage && s in index.pieces && unit in PieceIds(index.pieces[s].pieces) {
        assert s == "A";
      }
    }
  }

  lemma BorrowedFiles(h: Hashes) returns (index: Index, jobs: seq<Placed>, copy: Copy)
    ensures OneTile(h, index, jobs, "B", copy) && Settled(h, index, jobs, map["B" := copy]) && copy.identity.segment == "B"
    ensures IsSegmentText(h, index, "A", "x") && forall s :: s in index.pieces ==> DistinctIds(index.pieces[s].pieces)
  {
    var pieces := BorrowedPieces(h);
    index, jobs := FilesFor(h, ["source"], {"A", "B"}, pieces), [Placed("shard", OneJob(h, ["source"]))];
    copy := FilesAreOneTile(h, ["source"], {"A", "B"}, pieces);
    BorrowedIsSettled(h, jobs, copy);
  }

  /**
   A build that is accepted and covers nothing of segment "A", though no declaration repeats an identifier:
   its one piece is a unit of segment "B".
   */
  lemma CoverCanFail(h: Hashes) returns (index: Index, jobs: seq<Placed>, order: map<string, nat>, rows: map<string, Row>)
    ensures Admissible(h, index, jobs) && Built(h, index, jobs, order, rows)
    ensures forall s :: s in index.pieces ==> DistinctIds(index.pieces[s].pieces)
    ensures IsSegmentText(h, index, "A", "x") && forall unit :: unit in rows ==> !Covers(rows[unit], "A", 0)
  {
    var copy;
    index, jobs, copy := BorrowedFiles(h);
    order, rows := OneTileBuilt(h, index, jobs, "B", copy);
  }

  lemma DoubleReader(h: Hashes, rows: map<string, Row>, jobs: seq<Placed>)
    requires SoleJob(h, rows, jobs, OneJob(h, ["source", "source"]))
    ensures OwnedAt(h, rows, jobs, "B", 0, 0) && OwnedAt(h, rows, jobs, "B", 0, 1) && !OwnedOnce(h, rows, jobs, "B")
  {
    assert OneIdPerUnit(jobs[0].job);
    assert OwnedAt(h, rows, jobs, "B", 0, 0) && OwnedAt(h, rows, jobs, "B", 0, 1);
  }

  /** A job that lists one source twice: the build and the index accept it, and it owns the unit twice. */
  lemma OwnedTwice(h: Hashes) returns (index: Index, jobs: seq<Placed>, order: map<string, nat>, rows: map<string, Row>)
    ensures Admissible(h, index, jobs) && Built(h, index, jobs, order, rows) && "B" in rows
    ensures OwnedAt(h, rows, jobs, "B", 0, 0) && OwnedAt(h, rows, jobs, "B", 0, 1) && !OwnedOnce(h, rows, jobs, "B")
  {
    index, jobs, order, rows := WholeBuilt(h, ["source", "source"]);
    DoubleReader(h, rows, jobs);
  }

  lemma RefusedReader(h: Hashes, rows: map<string, Row>, jobs: seq<Placed>)
    requires SoleJob(h, rows, jobs, OneJob(h, ["first", "second"]))
    ensures !AcceptsJob(h, rows, jobs[0].job) && !OwnedOnce(h, rows, jobs, "B")
  {
    var sources := jobs[0].job.sources;
    assert sources[0].id == "first" && sources[1].id == "second" && "first"[0] != "second"[0];
    assert At(sources[0]).unit == At(sources[1]).unit;
    assert !OneIdPerUnit(jobs[0].job);
  }

  /**
   A job that reads a unit under two identifiers: the build accepts it and the index
   refuses it, so nothing of the unit is owned.
   */
  lemma RefusedByIndex(h: Hashes) returns (index: Index, jobs: seq<Placed>, order: map<string, nat>, rows: map<string, Row>)
    ensures Admissible(h, index, jobs) && Built(h, index, jobs, order, rows) && "B" in rows
    ensures |jobs| == 1 && !AcceptsJob(h, rows, jobs[0].job) && !OwnedOnce(h, rows, jobs, "B")
  {
    index, jobs, order, rows := WholeBuilt(h, ["first", "second"]);
    RefusedReader(h, rows, jobs);
  }
}
