/**
 Whom the units of an accepted ownership build belong to: of all the frozen jobs'
 sources exactly one per unit is marked as owned.
 */
module OwnershipIndex {
  import opened Wrappers
  import opened Sorting
  import opened Ownership
  import opened ExactCover

  // ---------------------------------------------------------------------
  // One owner
  // ---------------------------------------------------------------------

  lemma OptionReads(h: Hashes, index: Index, done: seq<Entry>, readings: seq<Reading>, order: map<string, nat>, row: Row,
                    unit: string, c: Candidate) returns (e: Entry)
    requires AreReadings(h, index, done, readings) && Ranked(order, CandidatesFor(readings, unit), row) && c in OptionsOf(row)
    ensures e in done && At(e.source).unit == unit && CandidateOf(h, e) == c
  {
    CandidatesAreReaders(readings, |readings|, unit, c);
    var i :| 0 <= i < |readings| && IsClaim(readings[i], unit, c);
    e := done[i];
  }

  lemma ReaderIsOption(h: Hashes, index: Index, done: seq<Entry>, readings: seq<Reading>, order: map<string, nat>, row: Row,
                       unit: string, e: Entry)
    requires AreReadings(h, index, done, readings) && Ranked(order, CandidatesFor(readings, unit), row)
    requires e in done && At(e.source).unit == unit
    ensures CandidateOf(h, e) in OptionsOf(row)
    ensures !Before(Rank(order, CandidateOf(h, e)), Rank(order, row.owner))
  {
    var i :| 0 <= i < |done| && done[i] == e;
    assert IsClaim(readings[i], unit, CandidateOf(h, e));
    CandidatesAreReaders(readings, |readings|, unit, CandidateOf(h, e));
  }

  /**
   The owner is some reader of the unit; a focal reader beats a context reader, and among
   equals the earliest tile wins.
   */
  lemma OwnerIsBest(h: Hashes, index: Index, done: seq<Entry>, readings: seq<Reading>, order: map<string, nat>, row: Row,
                    unit: string) returns (owner: Entry)
    requires AreReadings(h, index, done, readings) && Ranked(order, CandidatesFor(readings, unit), row)
    requires forall i :: 0 <= i < |done| ==> done[i].job.id in order
    ensures owner in done && At(owner.source).unit == unit && CandidateOf(h, owner) == row.owner
    ensures forall e :: e in done && At(e.source).unit == unit ==>
              && (e.source.focal ==> owner.source.focal)
              && (e.source.focal == owner.source.focal ==> order[owner.job.id] <= order[e.job.id])
  {
    owner := OptionReads(h, index, done, readings, order, row, unit, row.owner);
    forall e | e in done && At(e.source).unit == unit
      ensures e.source.focal ==> owner.source.focal
      ensures e.source.focal == owner.source.focal ==> order[owner.job.id] <= order[e.job.id]
    {
      ReaderIsOption(h, index, done, readings, order, row, unit, e);
    }
  }

  // ---------------------------------------------------------------------
  // Resolving frozen jobs
  // ---------------------------------------------------------------------

  datatype Owned = Owned(sourceId: string, owned: bool, identity: Identity)

  /** The first candidate that belongs to the job. */
  function FirstFor(options: seq<Candidate>, jobId: string): (c: Option<Candidate>)
    ensures c.Some? ==> c.value in options && c.value.jobId == jobId
    ensures c.None? ==> forall d :: d in options ==> d.jobId != jobId
  {
    if options == [] then None
    else if options[0].jobId == jobId then Some(options[0])
    else FirstFor(options[1..], jobId)
  }

  /** The job's source is the very one the row was built from. */
  predicate Accepts(h: Hashes, rows: map<string, Row>, job: Job, s: Source) {
    && SourceUnit(s).Some? && At(s).unit in rows
    && var row := rows[At(s).unit];
       && s.sha == h.text(s.text) && row.identity == CopyOf(s).identity
       && var entry := FirstFor(OptionsOf(row), job.id);
          entry.Some? && entry.value.jobHash == h.job(job) && entry.value.sourceId == s.id
  }

  /** The index resolves the job. */
  ghost predicate AcceptsJob(h: Hashes, rows: map<string, Row>, job: Job) {
    forall k :: 0 <= k < |job.sources| ==> Accepts(h, rows, job, job.sources[k])
  }

  /** Resolves one job against the rows, or refuses it. */
  method SourcesFor(h: Hashes, rows: map<string, Row>, job: Job) returns (r: Option<seq<Owned>>)
    ensures r.Some? <==> AcceptsJob(h, rows, job)
    ensures r.Some? ==> |r.value| == |job.sources| && forall k :: 0 <= k < |job.sources| ==>
              && r.value[k].sourceId == job.sources[k].id
              && (r.value[k].owned <==> rows[At(job.sources[k]).unit].owner.jobId == job.id)
              && r.value[k].identity == CopyOf(job.sources[k]).identity
  {
    var result: seq<Owned> := [];
    for k := 0 to |job.sources|
      invariant |result| == k
      invariant forall m :: 0 <= m < k ==>
                  && Accepts(h, rows, job, job.sources[m])
                  && result[m].sourceId == job.sources[m].id
                  && (result[m].owned <==> rows[At(job.sources[m]).unit].owner.jobId == job.id)
                  && result[m].identity == CopyOf(job.sources[m]).identity
    {
      var s := job.sources[k];
      if !Accepts(h, rows, job, s) {
        return None;
      }
      var row := rows[At(s).unit];
      var entry := FirstFor(OptionsOf(row), job.id).value;
      result := result + [Owned(s.id, entry == row.owner, row.identity)];
    }
    return Some(result);
  }

  lemma {:induction false} JobSourceIsEntry(p: Placed, k: nat)
    requires k < |p.job.sources|
    ensures Entry(p.shard, p.job, p.job.sources[k]) in JobEntries(p, |p.job.sources|)
  {
    assert JobEntries(p, |p.job.sources|)[k] == Entry(p.shard, p.job, p.job.sources[k]);
  }

  lemma {:induction false} FrozenSourceIsRead(jobs: seq<Placed>, n: nat, m: nat, k: nat)
    requires m < n <= |jobs| && k < |jobs[m].job.sources|
    ensures Entry(jobs[m].shard, jobs[m].job, jobs[m].job.sources[k]) in Entries(jobs, n)
  {
    var last := JobEntries(jobs[n - 1], |jobs[n - 1].job.sources|);
    assert Entries(jobs, n) == Entries(jobs, n - 1) + last;
    if m == n - 1 {
      JobSourceIsEntry(jobs[m], k);
    } else {
      FrozenSourceIsRead(jobs, n - 1, m, k);
    }
  }

  lemma {:induction false} ReadIsFrozen(jobs: seq<Placed>, n: nat, e: Entry) returns (m: nat, k: nat)
    requires n <= |jobs| && e in Entries(jobs, n)
    ensures m < n && k < |jobs[m].job.sources| && e == Entry(jobs[m].shard, jobs[m].job, jobs[m].job.sources[k])
  {
    var last := JobEntries(jobs[n - 1], |jobs[n - 1].job.sources|);
    if e in last {
      m := n - 1;
      k :| 0 <= k < |last| && last[k] == e;
    } else {
      m, k := ReadIsFrozen(jobs, n - 1, e);
    }
  }

  /** No job reads one unit under two source identifiers. */
  ghost predicate OneIdPerUnit(job: Job) {
    forall k, m ::
      0 <= k < |job.sources| && 0 <= m < |job.sources| && At(job.sources[k]).unit == At(job.sources[m]).unit ==>
        job.sources[k].id == job.sources[m].id
  }

  /** No job reads one unit twice. */
  ghost predicate OncePerUnit(job: Job) {
    forall k, m :: 0 <= k < m < |job.sources| ==> At(job.sources[k]).unit != At(job.sources[m]).unit
  }

  /** Jobs of the frozen files keep their own identifiers. */
  ghost predicate DistinctJobs(jobs: seq<Placed>) {
    forall l, m :: 0 <= l < m < |jobs| ==> jobs[l].job.id != jobs[m].job.id
  }

  lemma {:induction false} SameJob(jobs: seq<Placed>, e: Entry, m: nat)
    requires DistinctJobs(jobs) && e in Entries(jobs, |jobs|) && m < |jobs| && jobs[m].job.id == e.job.id
    ensures e.job == jobs[m].job
  {
    var l, k := ReadIsFrozen(jobs, |jobs|, e);
    assert l < m || l == m || m < l;
  }

  /** A frozen source is accepted when its job reads the unit under one identifier only. */
  lemma {:induction false} FrozenSourceAccepted(h: Hashes, index: Index, jobs: seq<Placed>, readings: seq<Reading>,
                                                order: map<string, nat>,
                             texts: map<string, Copy>, rows: map<string, Row>, m: nat, k: nat)
    requires Bound(h, index, Entries(jobs, |jobs|), readings, order, texts, rows) && DistinctJobs(jobs)
    requires m < |jobs| && k < |jobs[m].job.sources| && OneIdPerUnit(jobs[m].job)
    ensures Accepts(h, rows, jobs[m].job, jobs[m].job.sources[k])
  {
    var done, job, s := Entries(jobs, |jobs|), jobs[m].job, jobs[m].job.sources[k];
    var e, unit := Entry(jobs[m].shard, job, s), At(s).unit;
    FrozenSourceIsRead(jobs, |jobs|, m, k);
    EntryIsChecked(h, index, done, readings, order, texts, rows, e);
    var row := rows[unit];
    ReaderIsOption(h, index, done, readings, order, row, unit, e);
    var entry := FirstFor(OptionsOf(row), job.id);
    var f := OptionReads(h, index, done, readings, order, row, unit, entry.value);
    SameJob(jobs, f, m);
    var l, j := ReadIsFrozen(jobs, |jobs|, f);
    assert l < m || l == m || m < l;
  }

  lemma {:induction false} BoundJobAccepted(h: Hashes, index: Index, jobs: seq<Placed>, readings: seq<Reading>,
                                            order: map<string, nat>,
                          texts: map<string, Copy>, rows: map<string, Row>, m: nat)
    requires Bound(h, index, Entries(jobs, |jobs|), readings, order, texts, rows) && DistinctJobs(jobs) && m < |jobs|
    ensures AcceptsJob(h, rows, jobs[m].job) <==> OneIdPerUnit(jobs[m].job)
  {
    if OneIdPerUnit(jobs[m].job) {
      forall k | 0 <= k < |jobs[m].job.sources|
        ensures Accepts(h, rows, jobs[m].job, jobs[m].job.sources[k])
      {
        FrozenSourceAccepted(h, index, jobs, readings, order, texts, rows, m, k);
      }
    }
  }

  /** Source `j` of job `l` is a copy of the unit. */
  ghost predicate Reads(jobs: seq<Placed>, unit: string, l: int, j: int) {
    0 <= l < |jobs| && 0 <= j < |jobs[l].job.sources| && At(jobs[l].job.sources[j]).unit == unit
  }

  ghost predicate ReadOnce(jobs: seq<Placed>, unit: string, m: int) {
    forall j, k :: Reads(jobs, unit, m, j) && Reads(jobs, unit, m, k) ==> j == k
  }

  /** Source `k` of job `m` reads the unit, and no reader of it is better: focal before context, then the earlier tile. */
  ghost predicate IsBestReader(jobs: seq<Placed>, order: map<string, nat>, unit: string, m: int, k: int) {
    && Reads(jobs, unit, m, k) && jobs[m].job.id in order
    && forall l, j :: Reads(jobs, unit, l, j) ==>
         && jobs[l].job.id in order
         && (jobs[l].job.sources[j].focal ==> jobs[m].job.sources[k].focal)
         && (jobs[l].job.sources[j].focal == jobs[m].job.sources[k].focal ==> order[jobs[m].job.id] <= order[jobs[l].job.id])
  }

  /** The owner of a unit is its best reader, and all owned sources of the unit are those of its job. */
  lemma {:induction false} OwnerJob(h: Hashes, index: Index, jobs: seq<Placed>, readings: seq<Reading>,
                                    order: map<string, nat>, row: Row,
                 unit: string) returns (m: nat, k: nat)
    requires AreReadings(h, index, Entries(jobs, |jobs|), readings) && DistinctJobs(jobs)
    requires Ranked(order, CandidatesFor(readings, unit), row)
    requires forall i :: 0 <= i < |jobs| ==> jobs[i].job.id in order
    ensures IsBestReader(jobs, order, unit, m, k)
    ensures forall l :: 0 <= l < |jobs| ==> (jobs[l].job.id == row.owner.jobId <==> l == m)
  {
    var done := Entries(jobs, |jobs|);
    forall i | 0 <= i < |done|
      ensures done[i].job.id in order
    {
      var a, b := ReadIsFrozen(jobs, |jobs|, done[i]);
    }
    var owner := OwnerIsBest(h, index, done, readings, order, row, unit);
    m, k := ReadIsFrozen(jobs, |jobs|, owner);
    forall l, j | Reads(jobs, unit, l, j)
      ensures Entry(jobs[l].shard, jobs[l].job, jobs[l].job.sources[j]) in done
    {
      FrozenSourceIsRead(jobs, |jobs|, l, j);
    }
    forall l | 0 <= l < |jobs| && jobs[l].job.id == row.owner.jobId
      ensures l == m
    {
      assert l < m || l == m || m < l;
    }
  }

  lemma {:induction false} OkJobsAreDistinct(h: Hashes, tiles: seq<Tile>, order: map<string, nat>, jobs: seq<Placed>,
                                             n: nat)
    requires n <= |jobs| && (forall id :: id in order ==> order[id] < |tiles|) && JobsOk(h, tiles, order, jobs, n)
    ensures forall l, m :: 0 <= l < m < n ==> jobs[l].job.id != jobs[m].job.id
    ensures forall m :: 0 <= m < n ==> jobs[m].job.id in order
  {
    if n > 0 {
      OkJobsAreDistinct(h, tiles, order, jobs, n - 1);
      JobIdsAre(jobs, n - 1, jobs[n - 1].job.id);
    }
  }

  lemma AdmittedJobs(h: Hashes, index: Index, jobs: seq<Placed>, order: map<string, nat>)
    requires Admissible(h, index, jobs) && IsTileOrder(index.tiles, order)
    ensures DistinctJobs(jobs) && forall m :: 0 <= m < |jobs| ==> jobs[m].job.id in order
  {
    assert JobsOk(h, index.tiles, order, jobs, |jobs|);
    OkJobsAreDistinct(h, index.tiles, order, jobs, |jobs|);
  }

  /** A frozen job is refused exactly when it reads one unit under two identifiers. */
  lemma FrozenJobAccepted(h: Hashes, index: Index, jobs: seq<Placed>, order: map<string, nat>, rows: map<string, Row>, m: nat)
    requires Admissible(h, index, jobs) && Built(h, index, jobs, order, rows) && m < |jobs|
    ensures AcceptsJob(h, rows, jobs[m].job) <==> OneIdPerUnit(jobs[m].job)
  {
    BuiltIsBound(h, index, jobs, order, rows);
    AdmittedJobs(h, index, jobs, order);
    BoundJobAccepted(h, index, jobs, AllRead(h, index, jobs), order, TextsOf(h, index, jobs), rows, m);
  }

  /** Source `j` of job `l` is a copy of the unit, its job is resolved, and it is marked as owned. */
  ghost predicate OwnedAt(h: Hashes, rows: map<string, Row>, jobs: seq<Placed>, unit: string, l: int, j: int)
    requires unit in rows
  {
    Reads(jobs, unit, l, j) && AcceptsJob(h, rows, jobs[l].job) && jobs[l].job.id == rows[unit].owner.jobId
  }

  ghost predicate OnlyOwnedAt(h: Hashes, rows: map<string, Row>, jobs: seq<Placed>, unit: string, m: int, k: int)
    requires unit in rows
  {
    OwnedAt(h, rows, jobs, unit, m, k) && forall l, j :: OwnedAt(h, rows, jobs, unit, l, j) ==> l == m && j == k
  }

  /** Exactly one source of the unit is marked as owned. */
  ghost predicate OwnedOnce(h: Hashes, rows: map<string, Row>, jobs: seq<Placed>, unit: string)
    requires unit in rows
  {
    exists m, k :: OnlyOwnedAt(h, rows, jobs, unit, m, k)
  }

  lemma OwnedWhereRead(h: Hashes, rows: map<string, Row>, jobs: seq<Placed>, unit: string, m: nat, k: nat)
    requires unit in rows && Reads(jobs, unit, m, k)
    requires forall l :: 0 <= l < |jobs| ==> (jobs[l].job.id == rows[unit].owner.jobId <==> l == m)
    ensures OwnedOnce(h, rows, jobs, unit) <==> AcceptsJob(h, rows, jobs[m].job) && ReadOnce(jobs, unit, m)
  {
    if AcceptsJob(h, rows, jobs[m].job) && ReadOnce(jobs, unit, m) {
      assert OnlyOwnedAt(h, rows, jobs, unit, m, k);
    }
    if OwnedOnce(h, rows, jobs, unit) {
      var l, j :| OnlyOwnedAt(h, rows, jobs, unit, l, j);
      forall i, i' | Reads(jobs, unit, m, i) && Reads(jobs, unit, m, i')
        ensures i == i'
      {
        assert OwnedAt(h, rows, jobs, unit, m, i) && OwnedAt(h, rows, jobs, unit, m, i');
      }
    }
  }

  /**
   Over all the frozen jobs of an accepted build, exactly one source of a unit is marked as
   owned if and only if the job of its best reader reads no unit under two identifiers and
   this unit once. The owned sources are that job's in any case.
   */
  lemma OneOwner(h: Hashes, index: Index, jobs: seq<Placed>, order: map<string, nat>, rows: map<string, Row>, unit: string)
    returns (m: nat, k: nat)
    requires Admissible(h, index, jobs) && Built(h, index, jobs, order, rows) && unit in rows
    ensures IsBestReader(jobs, order, unit, m, k)
    ensures forall l, j :: OwnedAt(h, rows, jobs, unit, l, j) ==> l == m
    ensures OwnedOnce(h, rows, jobs, unit) <==> OneIdPerUnit(jobs[m].job) && ReadOnce(jobs, unit, m)
  {
    BuiltIsBound(h, index, jobs, order, rows);
    AdmittedJobs(h, index, jobs, order);
    var readings, texts := AllRead(h, index, jobs), TextsOf(h, index, jobs);
    m, k := OwnerJob(h, index, jobs, readings, order, rows[unit], unit);
    FrozenJobAccepted(h, index, jobs, order, rows, m);
    OwnedWhereRead(h, rows, jobs, unit, m, k);
  }

  /** So where no job reads a unit twice, every unit has exactly one owned source. */
  lemma OneOwnerEach(h: Hashes, index: Index, jobs: seq<Placed>, order: map<string, nat>, rows: map<string, Row>,
                     unit: string)
    requires Admissible(h, index, jobs) && Built(h, index, jobs, order, rows) && unit in rows
    requires forall l :: 0 <= l < |jobs| ==> OncePerUnit(jobs[l].job)
    ensures OwnedOnce(h, rows, jobs, unit)
  {
    var m, k := OneOwner(h, index, jobs, order, rows, unit);
    assert OncePerUnit(jobs[m].job);
    OnceMeansOneId(jobs[m].job);
    OnceIsReadOnce(jobs, unit, m);
  }

  lemma OnceIsReadOnce(jobs: seq<Placed>, unit: string, m: nat)
    requires m < |jobs| && OncePerUnit(jobs[m].job)
    ensures ReadOnce(jobs, unit, m)
  {
    forall j, k | Reads(jobs, unit, m, j) && Reads(jobs, unit, m, k)
      ensures j == k
    {
      assert j < k || j == k || k < j;
    }
  }

  lemma OnceMeansOneId(job: Job)
    requires OncePerUnit(job)
    ensures OneIdPerUnit(job)
  {
    forall k, m | 0 <= k < |job.sources| && 0 <= m < |job.sources| && At(job.sources[k]).unit == At(job.sources[m]).unit
      ensures k == m
    {
      assert k < m || k == m || m < k;
    }
  }
}
