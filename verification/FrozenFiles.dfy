/**
 What an accepted ownership build, and an accepted job, say of the frozen files:
 spelled out field by field.
 */
module FrozenFiles {
  import opened Wrappers
  import opened Sorting
  import opened Ownership
  import opened ExactCover
  import opened OwnershipIndex

  /** The source goes by the unit's name: its segment's, or that with the number of its piece. */
  ghost predicate GoesBy(s: Source, unit: string) {
    match s.piece
    case None => unit == s.segment
    case Some(p) => p.index >= 1 && unit == s.segment + "#p" + Digits(p.index)
  }

  /** Where in its segment the source lies, and the digest of the segment's text. */
  ghost predicate LiesAt(s: Source, start: int, end: int, segmentHash: Hash) {
    match s.piece
    case None => start == 0 && end == |s.text| && segmentHash == s.sha
    case Some(p) => start == p.rawStart && end == p.rawEnd && segmentHash == p.segmentHash
  }

  /** A piece has a number within its count and a place as long as its text, which is not empty. */
  ghost predicate PieceFits(s: Source) {
    s.piece.Some? ==>
      var p := s.piece.value;
      && 1 <= p.index && p.index <= p.of && 0 <= p.rawStart
      && p.rawEnd == p.rawStart + |s.text| && s.text != ""
  }

  /** A piece is declared under its segment, with this name, place and digest. */
  ghost predicate PieceDeclared(index: Index, s: Source) {
    s.piece.Some? ==>
      var p := s.piece.value;
      && s.segment in index.pieces && index.pieces[s.segment].segmentHash == p.segmentHash
      && exists d :: d in index.pieces[s.segment].pieces && GoesBy(s, d.pieceId)
                     && d.rawStart == p.rawStart && d.rawEnd == p.rawEnd && d.sha == s.sha
  }

  /** The segment is covered: by a text of this digest and reference, with this job in this role for this unit. */
  ghost predicate SegmentCovered(index: Index, jobId: string, s: Source) {
    && s.segment in index.coverage
    && var cover := index.coverage[s.segment];
       && LiesAt(s, if s.piece.None? then 0 else s.piece.value.rawStart,
                 if s.piece.None? then |s.text| else s.piece.value.rawEnd, cover.textHash)
       && cover.ref == s.ref
       && exists t :: t in cover.tileJobs && t.jobId == jobId && GoesBy(s, t.unit) && (t.role == Focal <==> s.focal)
  }

  ghost predicate SourceInOrder(h: Hashes, index: Index, jobId: string, s: Source) {
    && h.text(s.text) == s.sha && PieceFits(s) && SegmentCovered(index, jobId, s) && PieceDeclared(index, s)
  }

  lemma FittingUnit(s: Source)
    ensures SourceUnit(s).Some? <==> PieceFits(s)
    ensures SourceUnit(s).Some? ==>
              && GoesBy(s, At(s).unit) && LiesAt(s, At(s).start, At(s).end, At(s).segmentHash)
              && forall unit :: GoesBy(s, unit) <==> unit == At(s).unit
  {
  }

  /** The check of one source accepts exactly the sources in order. */
  lemma ChecksExactly(h: Hashes, index: Index, jobId: string, s: Source)
    ensures SourceOk(h, index, jobId, s) <==> SourceInOrder(h, index, jobId, s)
  {
    FittingUnit(s);
    if SourceUnit(s).Some? {
      if s.segment in index.coverage {
        RoleCovered(index.coverage[s.segment].tileJobs, jobId, s);
      }
      if s.piece.Some? && s.segment in index.pieces {
        PlaceDeclared(index.pieces[s.segment].pieces, s);
      }
    }
  }

  lemma RoleCovered(tileJobs: set<TileJob>, jobId: string, s: Source)
    requires SourceUnit(s).Some?
    ensures TileJob(jobId, RoleOf(s), At(s).unit) in tileJobs
       <==> exists t :: t in tileJobs && t.jobId == jobId && GoesBy(s, t.unit) && (t.role == Focal <==> s.focal)
  {
    FittingUnit(s);
    if t :| t in tileJobs && t.jobId == jobId && GoesBy(s, t.unit) && (t.role == Focal <==> s.focal) {
      assert t == TileJob(jobId, RoleOf(s), At(s).unit);
    }
    if TileJob(jobId, RoleOf(s), At(s).unit) in tileJobs {
      var t := TileJob(jobId, RoleOf(s), At(s).unit);
      assert t.role == Focal <==> s.focal;
    }
  }

  lemma PlaceDeclared(pieces: seq<Declared>, s: Source)
    requires SourceUnit(s).Some? && s.piece.Some?
    ensures Declared(At(s).unit, At(s).start, At(s).end, s.sha) in pieces
       <==> exists d :: d in pieces && GoesBy(s, d.pieceId)
                        && d.rawStart == s.piece.value.rawStart && d.rawEnd == s.piece.value.rawEnd && d.sha == s.sha
  {
    FittingUnit(s);
    if d :| d in pieces && GoesBy(s, d.pieceId)
            && d.rawStart == s.piece.value.rawStart && d.rawEnd == s.piece.value.rawEnd && d.sha == s.sha {
      assert d == Declared(At(s).unit, At(s).start, At(s).end, s.sha);
    }
  }

  /** The job reads exactly the listed units, in their order. */
  ghost predicate ReadsUnits(job: Job, units: seq<string>) {
    |units| == |job.sources| && forall k :: 0 <= k < |units| ==> GoesBy(job.sources[k], units[k])
  }

  lemma {:induction false} ObservedUnits(sources: seq<Source>)
    ensures |Observed(sources)| == |sources|
    ensures forall k :: 0 <= k < |sources| ==> Observed(sources)[k] == At(sources[k]).unit
  {
    if sources != [] {
      ObservedUnits(sources[..|sources| - 1]);
    }
  }

  lemma {:induction false} OkJob(h: Hashes, tiles: seq<Tile>, order: map<string, nat>, jobs: seq<Placed>, n: nat, m: nat)
    requires m < n <= |jobs| && (forall id :: id in order ==> order[id] < |tiles|) && JobsOk(h, tiles, order, jobs, n)
    ensures JobOk(h, tiles, order, jobs[m].job)
  {
    if m < n - 1 {
      OkJob(h, tiles, order, jobs, n - 1, m);
    }
  }

  lemma SourceIsInOrder(h: Hashes, index: Index, jobs: seq<Placed>, order: map<string, nat>, rows: map<string, Row>,
                        m: nat, k: nat)
    requires Admissible(h, index, jobs) && Built(h, index, jobs, order, rows)
    requires m < |jobs| && k < |jobs[m].job.sources|
    ensures SourceInOrder(h, index, jobs[m].job.id, jobs[m].job.sources[k])
    ensures At(jobs[m].job.sources[k]).unit in rows
    ensures rows[At(jobs[m].job.sources[k]).unit].identity == CopyOf(jobs[m].job.sources[k]).identity
  {
    BuiltIsBound(h, index, jobs, order, rows);
    FrozenSourceIsRead(jobs, |jobs|, m, k);
    var e := Entry(jobs[m].shard, jobs[m].job, jobs[m].job.sources[k]);
    EntryIsChecked(h, index, Entries(jobs, |jobs|), AllRead(h, index, jobs), order, TextsOf(h, index, jobs), rows, e);
    ChecksExactly(h, index, jobs[m].job.id, jobs[m].job.sources[k]);
  }

  /**
   In an accepted build every job is the one its tile was frozen with, every source of it
   is in order, and every tile has its job.
   */
  lemma AcceptedFilesAreSound(h: Hashes, index: Index, jobs: seq<Placed>, order: map<string, nat>, rows: map<string, Row>,
                              m: nat)
    requires Admissible(h, index, jobs) && Built(h, index, jobs, order, rows) && m < |jobs|
    ensures exists t ::
              && 0 <= t < |index.tiles| && index.tiles[t].jobId == jobs[m].job.id
              && index.tiles[t].inputHash == h.pretty(jobs[m].job) && ReadsUnits(jobs[m].job, index.tiles[t].units)
    ensures forall k :: 0 <= k < |jobs[m].job.sources| ==> SourceInOrder(h, index, jobs[m].job.id, jobs[m].job.sources[k])
    ensures forall l :: 0 <= l < |jobs| && jobs[l].job.id == jobs[m].job.id ==> l == m
  {
    var job := jobs[m].job;
    forall k | 0 <= k < |job.sources|
      ensures SourceInOrder(h, index, job.id, job.sources[k])
    {
      SourceIsInOrder(h, index, jobs, order, rows, m, k);
    }
    OkJob(h, index.tiles, order, jobs, |jobs|, m);
    AdmittedJobs(h, index, jobs, order);
    ObservedUnits(job.sources);
    forall k | 0 <= k < |job.sources|
      ensures GoesBy(job.sources[k], index.tiles[order[job.id]].units[k])
    {
      FittingUnit(job.sources[k]);
    }
    assert ReadsUnits(job, index.tiles[order[job.id]].units);
  }

  /** Every tile of an accepted build has its job. */
  lemma EveryTileIsRead(h: Hashes, index: Index, jobs: seq<Placed>, t: nat)
    requires Admissible(h, index, jobs) && t < |index.tiles|
    ensures exists m :: 0 <= m < |jobs| && jobs[m].job.id == index.tiles[t].jobId
  {
    assert index.tiles[t] in index.tiles;
    JobIdsAre(jobs, |jobs|, index.tiles[t].jobId);
  }

  /** Two frozen sources of an accepted build that go by one unit name agree in everything but identifier and role. */
  lemma CopiesAgree(h: Hashes, index: Index, jobs: seq<Placed>, order: map<string, nat>, rows: map<string, Row>,
                    m: nat, k: nat, l: nat, j: nat, unit: string)
    requires Admissible(h, index, jobs) && Built(h, index, jobs, order, rows)
    requires m < |jobs| && k < |jobs[m].job.sources| && l < |jobs| && j < |jobs[l].job.sources|
    requires GoesBy(jobs[m].job.sources[k], unit) && GoesBy(jobs[l].job.sources[j], unit)
    ensures var s, t := jobs[m].job.sources[k], jobs[l].job.sources[j];
            && s.segment == t.segment && s.edition == t.edition && s.ref == t.ref && s.sha == t.sha
            && forall start, end, hash :: LiesAt(s, start, end, hash) <==> LiesAt(t, start, end, hash)
  {
    SourceIsInOrder(h, index, jobs, order, rows, m, k);
    SourceIsInOrder(h, index, jobs, order, rows, l, j);
    FittingUnit(jobs[m].job.sources[k]);
    FittingUnit(jobs[l].job.sources[j]);
  }

  // ---------------------------------------------------------------------
  // Jobs against the index
  // ---------------------------------------------------------------------

  /** The row is of this very source, and lists the job, as it is now, with this identifier. */
  ghost predicate BoundTo(h: Hashes, row: Row, job: Job, s: Source) {
    && h.text(s.text) == s.sha
    && row.identity.segment == s.segment && row.identity.edition == s.edition && row.identity.ref == s.ref
    && row.identity.sha == s.sha
    && LiesAt(s, row.identity.start, row.identity.end, row.identity.segmentHash)
    && exists i :: IsFirstOf(OptionsOf(row), job.id, i)
                   && OptionsOf(row)[i].jobHash == h.job(job) && OptionsOf(row)[i].sourceId == s.id
  }

  /** Entry `i` is the first one of the job. */
  ghost predicate IsFirstOf(options: seq<Candidate>, jobId: string, i: int) {
    && 0 <= i < |options| && options[i].jobId == jobId
    && forall k :: 0 <= k < i ==> options[k].jobId != jobId
  }

  lemma {:induction false} FirstIsFirst(options: seq<Candidate>, jobId: string, i: int)
    requires IsFirstOf(options, jobId, i)
    ensures FirstFor(options, jobId) == Some(options[i])
  {
    if i > 0 {
      FirstIsFirst(options[1..], jobId, i - 1);
    }
  }

  lemma {:induction false} FoundIsFirst(options: seq<Candidate>, jobId: string) returns (i: int)
    requires FirstFor(options, jobId).Some?
    ensures IsFirstOf(options, jobId, i)
  {
    if options[0].jobId == jobId {
      i := 0;
    } else {
      i := FoundIsFirst(options[1..], jobId);
      i := i + 1;
    }
  }

  /** The index accepts a source exactly when it fits and some row of its unit's name is bound to it. */
  lemma AcceptsExactly(h: Hashes, rows: map<string, Row>, job: Job, s: Source)
    ensures Accepts(h, rows, job, s) <==>
      PieceFits(s) && exists unit :: GoesBy(s, unit) && unit in rows && BoundTo(h, rows[unit], job, s)
  {
    FittingUnit(s);
    if PieceFits(s) && At(s).unit in rows {
      var options := OptionsOf(rows[At(s).unit]);
      if FirstFor(options, job.id).Some? {
        var i := FoundIsFirst(options, job.id);
        FirstIsFirst(options, job.id, i);
      }
      if i :| IsFirstOf(options, job.id, i) {
        FirstIsFirst(options, job.id, i);
      }
    }
  }
}
