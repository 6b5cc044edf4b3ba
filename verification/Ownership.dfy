/**
 Binding publication ownership to overlapping source tiles. A build is accepted
 only when the source units cut every segment without gap or overlap; then every
 unit has one owner among all the jobs that read it.
 */
module Ownership {
  import opened Wrappers
  import opened Sorting

  type Hash(==, !new)

  datatype Piece = Piece(index: int, of: int, rawStart: int, rawEnd: int, segmentHash: Hash)

  datatype Source = Source(
    id: string, text: string, sha: Hash, edition: string, ref: string, segment: string, focal: bool, piece: Option<Piece>)

  datatype Job = Job(id: string, sources: seq<Source>)

  /** A job as it stands in a shard. */
  datatype Placed = Placed(shard: string, job: Job)

  datatype Hashes = Hashes(text: string -> Hash, job: Job -> Hash, pretty: Job -> Hash)

  ghost predicate Injective(h: Hashes) {
    && (forall s, t :: h.text(s) == h.text(t) ==> s == t)
    && (forall s, t :: h.job(s) == h.job(t) ==> s == t)
  }

  datatype Tile = Tile(jobId: string, inputHash: Hash, units: seq<string>)

  datatype Role = Focal | Context

  datatype TileJob = TileJob(jobId: string, role: Role, unit: string)

  datatype Coverage = Coverage(textHash: Hash, ref: string, tileJobs: set<TileJob>)

  datatype Declared = Declared(pieceId: string, rawStart: int, rawEnd: int, sha: Hash)

  datatype Declaration = Declaration(chars: int, segmentHash: Hash, pieces: seq<Declared>)

  /** The frozen index files. */
  datatype Index = Index(tiles: seq<Tile>, coverage: map<string, Coverage>, pieces: map<string, Declaration>)

  // ---------------------------------------------------------------------
  // Names of units
  // ---------------------------------------------------------------------

  function Digits(n: nat): string {
    if n < 10 then [Digit(n)] else Digits(n / 10) + [Digit(n % 10)]
  }

  function Digit(n: nat): char
    requires n < 10
  {
    "0123456789"[n]
  }

  lemma {:induction false} DigitsAreDigits(n: nat)
    ensures |Digits(n)| > 0 && forall i :: 0 <= i < |Digits(n)| ==> '0' <= Digits(n)[i] <= '9'
  {
    if n >= 10 {
      DigitsAreDigits(n / 10);
    }
  }

  function PieceName(segment: string, index: nat): string {
    segment + "#p" + Digits(index)
  }

  /** The mark that ends the segment in a piece's name is the last 'p' in it. */
  lemma DigitsFollowMark(segment: string, index: nat)
    ensures PieceName(segment, index)[|segment| + 1] == 'p'
    ensures forall i :: |segment| + 2 <= i < |PieceName(segment, index)| ==> PieceName(segment, index)[i] != 'p'
  {
    DigitsAreDigits(index);
    var name := PieceName(segment, index);
    assert forall i :: |segment| + 2 <= i < |name| ==> name[i] == Digits(index)[i - |segment| - 2];
  }

  /** A piece's name tells its segment. */
  lemma PieceNameTellsSegment(segment: string, index: nat, segment': string, index': nat)
    requires PieceName(segment, index) == PieceName(segment', index')
    ensures segment == segment'
  {
    var name := PieceName(segment, index);
    DigitsFollowMark(segment, index);
    DigitsFollowMark(segment', index');
    assert name[..|segment|] == segment && name[..|segment'|] == segment';
  }

  datatype Located = Located(unit: string, start: int, end: int, segmentHash: Hash)

  function SourceUnit(s: Source): Option<Located> {
    match s.piece
    case None => Some(Located(s.segment, 0, |s.text|, s.sha))
    case Some(p) =>
      if 1 <= p.index <= p.of && 0 <= p.rawStart < p.rawEnd && p.rawEnd - p.rawStart == |s.text|
      then Some(Located(PieceName(s.segment, p.index), p.rawStart, p.rawEnd, p.segmentHash))
      else None
  }

  function RoleOf(s: Source): Role {
    if s.focal then Focal else Context
  }

  /** Where the source lies, for a source that lies somewhere. */
  function At(s: Source): Located {
    match SourceUnit(s)
    case Some(at) => at
    case None => Located("", 0, 0, s.sha)
  }

  datatype Identity = Identity(
    segment: string, edition: string, ref: string, sha: Hash, segmentHash: Hash, start: int, end: int)

  datatype Copy = Copy(identity: Identity, text: string)

  function CopyOf(s: Source): Copy {
    var at := At(s);
    Copy(Identity(s.segment, s.edition, s.ref, s.sha, at.segmentHash, at.start, at.end), s.text)
  }

  // ---------------------------------------------------------------------
  // What a build checks of the sources
  // ---------------------------------------------------------------------

  /** One source of one job, wherever it stands. */
  datatype Entry = Entry(shard: string, job: Job, source: Source)

  predicate InIndex(index: Index, s: Source, at: Located) {
    s.piece.Some? ==>
      && s.segment in index.pieces
      && index.pieces[s.segment].segmentHash == at.segmentHash
      && Declared(at.unit, at.start, at.end, s.sha) in index.pieces[s.segment].pieces
  }

  predicate SourceOk(h: Hashes, index: Index, jobId: string, s: Source) {
    && h.text(s.text) == s.sha
    && SourceUnit(s).Some?
    && s.segment in index.coverage
    && index.coverage[s.segment].textHash == At(s).segmentHash && index.coverage[s.segment].ref == s.ref
    && TileJob(jobId, RoleOf(s), At(s).unit) in index.coverage[s.segment].tileJobs
    && InIndex(index, s, At(s))
  }

  datatype Candidate = Candidate(jobId: string, jobHash: Hash, sourceId: string, role: Role, shard: string)

  function CandidateOf(h: Hashes, e: Entry): Candidate {
    Candidate(e.job.id, h.job(e.job), e.source.id, RoleOf(e.source), e.shard)
  }

  /** What one source comes down to: its unit, its copy of it, its claim to it, and whether it is in order. */
  datatype Reading = Reading(unit: string, copy: Copy, candidate: Candidate, sound: bool)

  function ReadingOf(h: Hashes, index: Index, e: Entry): Reading {
    Reading(At(e.source).unit, CopyOf(e.source), CandidateOf(h, e), SourceOk(h, index, e.job.id, e.source))
  }

  function Readings(h: Hashes, index: Index, done: seq<Entry>): (readings: seq<Reading>)
    ensures |readings| == |done| && forall i :: 0 <= i < |done| ==> readings[i] == ReadingOf(h, index, done[i])
  {
    if done == [] then [] else Readings(h, index, done[..|done| - 1]) + [ReadingOf(h, index, done[|done| - 1])]
  }

  // ---------------------------------------------------------------------
  // Gathering the readings
  // ---------------------------------------------------------------------

  function WithText(texts: map<string, Copy>, r: Reading): map<string, Copy> {
    if r.unit in texts then texts else texts[r.unit := r.copy]
  }

  function WithCandidate(candidates: map<string, seq<Candidate>>, r: Reading): map<string, seq<Candidate>> {
    candidates[r.unit := (if r.unit in candidates then candidates[r.unit] else []) + [r.candidate]]
  }

  /** The first copy of each unit among the first `n` readings. */
  ghost function TextsTo(readings: seq<Reading>, n: nat): map<string, Copy>
    requires n <= |readings|
  {
    if n == 0 then map[] else WithText(TextsTo(readings, n - 1), readings[n - 1])
  }

  /** The readers of each unit among the first `n` readings, in reading order. */
  ghost function CandidatesTo(readings: seq<Reading>, n: nat): map<string, seq<Candidate>>
    requires n <= |readings|
  {
    if n == 0 then map[] else WithCandidate(CandidatesTo(readings, n - 1), readings[n - 1])
  }

  /** The reading is in order, and agrees with the first copy of its unit if there is one. */
  predicate Agrees(r: Reading, texts: map<string, Copy>) {
    r.sound && (r.unit in texts ==> texts[r.unit] == r.copy)
  }

  ghost predicate Agreed(readings: seq<Reading>, n: nat)
    requires n <= |readings|
  {
    n > 0 ==> Agreed(readings, n - 1) && Agrees(readings[n - 1], TextsTo(readings, n - 1))
  }

  /** Reads one source; refuses a copy that differs from the first one of the same unit. */
  method AddSource(h: Hashes, index: Index, shard: string, job: Job, s: Source,
                   candidates: map<string, seq<Candidate>>, texts: map<string, Copy>,
                   ghost readings: seq<Reading>, ghost n: nat)
    returns (ok: bool, candidates': map<string, seq<Candidate>>, texts': map<string, Copy>)
    requires n < |readings| && readings[n] == ReadingOf(h, index, Entry(shard, job, s)) && Agreed(readings, n)
    requires candidates == CandidatesTo(readings, n) && texts == TextsTo(readings, n)
    ensures ok <==> Agreed(readings, n + 1)
    ensures ok ==> candidates' == CandidatesTo(readings, n + 1) && texts' == TextsTo(readings, n + 1)
  {
    ok, candidates', texts' := false, candidates, texts;
    if !SourceOk(h, index, job.id, s) {
      return;
    }
    var unit, copy := At(s).unit, CopyOf(s);
    if unit in texts {
      if texts[unit] != copy {
        return;
      }
    } else {
      texts' := texts[unit := copy];
    }
    var c := Candidate(job.id, h.job(job), s.id, RoleOf(s), shard);
    candidates' := candidates[unit := (if unit in candidates then candidates[unit] else []) + [c]];
    ok := true;
  }

  lemma {:induction false} AgreedEarlier(readings: seq<Reading>, n: nat, m: nat)
    requires n <= m <= |readings| && Agreed(readings, m)
    ensures Agreed(readings, n)
    decreases m
  {
    if n < m {
      AgreedEarlier(readings, n, m - 1);
    }
  }

  ghost predicate IsCopy(r: Reading, unit: string, copy: Copy) {
    r.unit == unit && r.copy == copy
  }

  /** One of the first `n` readings is this copy of the unit. */
  ghost predicate Read(readings: seq<Reading>, n: nat, unit: string, copy: Copy)
    requires n <= |readings|
  {
    exists i :: 0 <= i < n && IsCopy(readings[i], unit, copy)
  }

  /** The texts are those of units read, one copy each. */
  lemma {:induction false} TextsAreRead(readings: seq<Reading>, n: nat)
    requires n <= |readings|
    ensures forall i :: 0 <= i < n ==> readings[i].unit in TextsTo(readings, n)
    ensures forall u :: u in TextsTo(readings, n) ==> Read(readings, n, u, TextsTo(readings, n)[u])
  {
    if n > 0 {
      var m := n - 1;
      TextsAreRead(readings, m);
      assert IsCopy(readings[m], readings[m].unit, readings[m].copy);
      forall u | u in TextsTo(readings, m)
        ensures Read(readings, n, u, TextsTo(readings, m)[u])
      {
        var i :| 0 <= i < m && IsCopy(readings[i], u, TextsTo(readings, m)[u]);
      }
    }
  }

  predicate SameUnit(r: Reading, q: Reading) {
    r.unit == q.unit
  }

  /** The first `n` sources: each in order, and all copies of a unit alike. */
  ghost predicate Checked(readings: seq<Reading>, n: nat)
    requires n <= |readings|
  {
    && (forall i :: 0 <= i < n ==> readings[i].sound)
    && (forall i, j :: 0 <= i < n && 0 <= j < n && SameUnit(readings[i], readings[j]) ==> readings[i].copy == readings[j].copy)
  }

  ghost predicate AgreesWithAll(readings: seq<Reading>, n: nat)
    requires n < |readings|
  {
    forall i :: 0 <= i < n && SameUnit(readings[i], readings[n]) ==> readings[i].copy == readings[n].copy
  }

  lemma CheckedStep(readings: seq<Reading>, n: nat)
    requires n < |readings|
    ensures Checked(readings, n + 1) <==> Checked(readings, n) && readings[n].sound && AgreesWithAll(readings, n)
  {
  }

  /** Agreeing with the first copy is agreeing with every copy. */
  lemma {:induction false} AgreedIsChecked(readings: seq<Reading>, n: nat)
    requires n <= |readings|
    ensures Agreed(readings, n) <==> Checked(readings, n)
  {
    if n > 0 {
      AgreedIsChecked(readings, n - 1);
      CheckedStep(readings, n - 1);
      if Checked(readings, n - 1) {
        FirstStandsForAll(readings, n - 1);
      }
    }
  }

  lemma {:induction false} FirstStandsForAll(readings: seq<Reading>, n: nat)
    requires n < |readings| && Checked(readings, n)
    ensures var unit := readings[n].unit;
            (unit in TextsTo(readings, n) ==> TextsTo(readings, n)[unit] == readings[n].copy) <==> AgreesWithAll(readings, n)
  {
    TextsAreRead(readings, n);
    if readings[n].unit in TextsTo(readings, n) {
      FirstIsCopy(readings, n, TextsTo(readings, n)[readings[n].unit]);
    }
  }

  lemma FirstIsCopy(readings: seq<Reading>, n: nat, copy: Copy)
    requires n < |readings| && Checked(readings, n) && Read(readings, n, readings[n].unit, copy)
    ensures copy == readings[n].copy <==> AgreesWithAll(readings, n)
  {
    var j :| 0 <= j < n && IsCopy(readings[j], readings[n].unit, copy);
    forall i | 0 <= i < n && SameUnit(readings[i], readings[n])
      ensures readings[i].copy == copy
    {
      assert SameUnit(readings[i], readings[j]);
    }
    assert SameUnit(readings[j], readings[n]);
  }

  /** The candidates for one unit. */
  ghost function CandidatesFor(readings: seq<Reading>, unit: string): seq<Candidate> {
    var all := CandidatesTo(readings, |readings|);
    if unit in all then all[unit] else []
  }

  ghost predicate ReadBy(readings: seq<Reading>, n: nat, unit: string, c: Candidate)
    requires n <= |readings|
  {
    exists i :: 0 <= i < n && IsClaim(readings[i], unit, c)
  }

  ghost predicate IsClaim(r: Reading, unit: string, c: Candidate) {
    r.unit == unit && r.candidate == c
  }

  /** The candidates for a unit are its readers. */
  lemma {:induction false} CandidatesAreReaders(readings: seq<Reading>, n: nat, unit: string, c: Candidate)
    requires n <= |readings|
    ensures (unit in CandidatesTo(readings, n) && c in CandidatesTo(readings, n)[unit]) <==> ReadBy(readings, n, unit, c)
  {
    if n > 0 {
      CandidatesAreReaders(readings, n - 1, unit, c);
      assert IsClaim(readings[n - 1], unit, c) || ReadBy(readings, n - 1, unit, c) <==> ReadBy(readings, n, unit, c);
    }
  }

  /** The units with candidates are the units with texts. */
  lemma {:induction false} SameUnits(readings: seq<Reading>, n: nat)
    requires n <= |readings|
    ensures CandidatesTo(readings, n).Keys == TextsTo(readings, n).Keys
    ensures forall u :: u in CandidatesTo(readings, n) ==> CandidatesTo(readings, n)[u] != []
  {
    if n > 0 {
      SameUnits(readings, n - 1);
    }
  }

  // ---------------------------------------------------------------------
  // Jobs
  // ---------------------------------------------------------------------

  /** The first `k` sources of a job. */
  function JobEntries(p: Placed, k: nat): (entries: seq<Entry>)
    requires k <= |p.job.sources|
    ensures |entries| == k
    ensures forall i :: 0 <= i < k ==> entries[i] == Entry(p.shard, p.job, p.job.sources[i])
  {
    if k == 0 then [] else JobEntries(p, k - 1) + [Entry(p.shard, p.job, p.job.sources[k - 1])]
  }

  /** The sources of the first `n` jobs, in reading order. */
  function Entries(jobs: seq<Placed>, n: nat): seq<Entry>
    requires n <= |jobs|
  {
    if n == 0 then [] else Entries(jobs, n - 1) + JobEntries(jobs[n - 1], |jobs[n - 1].job.sources|)
  }

  function Observed(sources: seq<Source>): seq<string> {
    if sources == [] then [] else Observed(sources[..|sources| - 1]) + [At(sources[|sources| - 1]).unit]
  }

  ghost predicate UniqueTiles(tiles: seq<Tile>, n: nat)
    requires n <= |tiles|
  {
    forall i, j :: 0 <= i < j < n ==> tiles[i].jobId != tiles[j].jobId
  }

  /** The order of the tiles: where each job stands in the index. */
  ghost predicate IsTileOrder(tiles: seq<Tile>, order: map<string, nat>) {
    && (forall i :: 0 <= i < |tiles| ==> tiles[i].jobId in order && order[tiles[i].jobId] == i)
    && (forall id :: id in order ==> order[id] < |tiles| && tiles[order[id]].jobId == id)
  }

  /** Refuses a tile index that names a job twice. */
  method IndexTiles(tiles: seq<Tile>) returns (order: Option<map<string, nat>>)
    ensures order.Some? <==> UniqueTiles(tiles, |tiles|)
    ensures order.Some? ==> IsTileOrder(tiles, order.value)
  {
    var found: map<string, nat> := map[];
    for i := 0 to |tiles|
      invariant |found| <= i && (|found| == i <==> UniqueTiles(tiles, i))
      invariant FirstTiles(tiles, found, i)
    {
      TileIsNew(tiles, found, i);
      found := found[tiles[i].jobId := i];
    }
    if |found| != |tiles| {
      return None;
    }
    return Some(found);
  }

  /** The last place of each job among the first `i` tiles. */
  ghost predicate FirstTiles(tiles: seq<Tile>, found: map<string, nat>, i: nat)
    requires i <= |tiles|
  {
    && (forall id :: id in found ==> found[id] < i && tiles[found[id]].jobId == id)
    && (forall k :: 0 <= k < i ==> tiles[k].jobId in found)
  }

  lemma TileIsNew(tiles: seq<Tile>, found: map<string, nat>, i: nat)
    requires i < |tiles| && FirstTiles(tiles, found, i)
    ensures UniqueTiles(tiles, i + 1) <==> UniqueTiles(tiles, i) && tiles[i].jobId !in found
  {
  }

  /** The job of a shard is the one its tile was frozen with, and reads the tile's units in order. */
  predicate JobOk(h: Hashes, tiles: seq<Tile>, order: map<string, nat>, job: Job)
    requires forall id :: id in order ==> order[id] < |tiles|
  {
    && job.id in order
    && h.pretty(job) == tiles[order[job.id]].inputHash
    && Observed(job.sources) == tiles[order[job.id]].units
  }

  function JobIds(jobs: seq<Placed>, n: nat): set<string>
    requires n <= |jobs|
  {
    if n == 0 then {} else JobIds(jobs, n - 1) + {jobs[n - 1].job.id}
  }

  ghost predicate JobsOk(h: Hashes, tiles: seq<Tile>, order: map<string, nat>, jobs: seq<Placed>, n: nat)
    requires n <= |jobs| && forall id :: id in order ==> order[id] < |tiles|
  {
    n > 0 ==>
      && JobsOk(h, tiles, order, jobs, n - 1)
      && JobOk(h, tiles, order, jobs[n - 1].job) && jobs[n - 1].job.id !in JobIds(jobs, n - 1)
  }

  lemma {:induction false} JobIdsAre(jobs: seq<Placed>, n: nat, id: string)
    requires n <= |jobs|
    ensures id in JobIds(jobs, n) <==> exists m :: 0 <= m < n && jobs[m].job.id == id
  {
    if n > 0 {
      JobIdsAre(jobs, n - 1, id);
      assert jobs[n - 1].job.id == id ==> id in JobIds(jobs, n);
    }
  }

  lemma {:induction false} JobsOkEarlier(h: Hashes, tiles: seq<Tile>, order: map<string, nat>, jobs: seq<Placed>,
                                         n: nat, m: nat)
    requires n <= m <= |jobs| && (forall id :: id in order ==> order[id] < |tiles|) && JobsOk(h, tiles, order, jobs, m)
    ensures JobsOk(h, tiles, order, jobs, n)
    decreases m
  {
    if n < m {
      JobsOkEarlier(h, tiles, order, jobs, n, m - 1);
    }
  }

  /** Reads every source of every job. */
  method ReadSources(h: Hashes, index: Index, done: seq<Entry>, ghost readings: seq<Reading>)
    returns (ok: bool, candidates: map<string, seq<Candidate>>, texts: map<string, Copy>)
    requires readings == Readings(h, index, done)
    ensures ok <==> Agreed(readings, |readings|)
    ensures ok ==> candidates == CandidatesTo(readings, |readings|) && texts == TextsTo(readings, |readings|)
  {
    ok, candidates, texts := true, map[], map[];
    for i := 0 to |done|
      invariant ok && Agreed(readings, i)
      invariant candidates == CandidatesTo(readings, i) && texts == TextsTo(readings, i)
    {
      var e := done[i];
      ok, candidates, texts := AddSource(h, index, e.shard, e.job, e.source, candidates, texts, readings, i);
      if !ok {
        NotAgreedLater(readings, i + 1);
        return;
      }
    }
  }

  /** Checks that a job is the tile's, and the first of its name. */
  method CheckJob(h: Hashes, tiles: seq<Tile>, order: map<string, nat>, jobs: seq<Placed>, n: nat, ids: set<string>)
    returns (ok: bool)
    requires n < |jobs| && forall id :: id in order ==> order[id] < |tiles|
    requires JobsOk(h, tiles, order, jobs, n) && ids == JobIds(jobs, n)
    ensures ok <==> JobsOk(h, tiles, order, jobs, n + 1)
  {
    ok := JobOk(h, tiles, order, jobs[n].job) && jobs[n].job.id !in ids;
  }

  lemma {:induction false} NotOkLater(h: Hashes, tiles: seq<Tile>, order: map<string, nat>, jobs: seq<Placed>, n: nat)
    requires n <= |jobs| && (forall id :: id in order ==> order[id] < |tiles|) && !JobsOk(h, tiles, order, jobs, n)
    ensures !JobsOk(h, tiles, order, jobs, |jobs|)
  {
    if JobsOk(h, tiles, order, jobs, |jobs|) {
      JobsOkEarlier(h, tiles, order, jobs, n, |jobs|);
    }
  }

  lemma {:induction false} NotAgreedLater(readings: seq<Reading>, n: nat)
    requires n <= |readings| && !Agreed(readings, n)
    ensures !Agreed(readings, |readings|)
  {
    if Agreed(readings, |readings|) {
      AgreedEarlier(readings, n, |readings|);
    }
  }

  /** Checks every job of every shard against the tile index. */
  method ReadJobs(h: Hashes, tiles: seq<Tile>, order: map<string, nat>, jobs: seq<Placed>)
    returns (ok: bool, ids: set<string>)
    requires forall id :: id in order ==> order[id] < |tiles|
    ensures ok <==> JobsOk(h, tiles, order, jobs, |jobs|)
    ensures ok ==> ids == JobIds(jobs, |jobs|)
  {
    ok, ids := true, {};
    for n := 0 to |jobs|
      invariant ok && JobsOk(h, tiles, order, jobs, n) && ids == JobIds(jobs, n)
    {
      ok := CheckJob(h, tiles, order, jobs, n, ids);
      if !ok {
        NotOkLater(h, tiles, order, jobs, n + 1);
        return;
      }
      ids := ids + {jobs[n].job.id};
    }
  }

  // ---------------------------------------------------------------------
  // Segments
  // ---------------------------------------------------------------------

  /** The texts of the first `n` declared pieces, one behind the other. */
  ghost function JoinedText(pieces: seq<Declared>, texts: map<string, Copy>, n: nat): string
    requires n <= |pieces|
  {
    if n == 0 then ""
    else JoinedText(pieces, texts, n - 1) + (if pieces[n - 1].pieceId in texts then texts[pieces[n - 1].pieceId].text else "")
  }

  /** Where piece `n` has to start. */
  function Cursor(pieces: seq<Declared>, n: nat): int
    requires n <= |pieces|
  {
    if n == 0 then 0 else pieces[n - 1].rawEnd
  }

  ghost predicate Abut(pieces: seq<Declared>, texts: map<string, Copy>, n: nat)
    requires n <= |pieces|
  {
    forall k :: 0 <= k < n ==> pieces[k].rawStart == Cursor(pieces, k) && pieces[k].pieceId in texts
  }

  /** The declared pieces follow each other from 0 to the end, and their texts add up to the segment's. */
  ghost predicate Reconstructs(h: Hashes, declaration: Declaration, textHash: Hash, texts: map<string, Copy>) {
    var pieces := declaration.pieces;
    && Abut(pieces, texts, |pieces|)
    && Cursor(pieces, |pieces|) == declaration.chars
    && h.text(JoinedText(pieces, texts, |pieces|)) == textHash
  }

  method CheckSegment(h: Hashes, declaration: Declaration, textHash: Hash, texts: map<string, Copy>) returns (ok: bool)
    ensures ok <==> Reconstructs(h, declaration, textHash, texts)
  {
    var pieces := declaration.pieces;
    var cursor, chunks := 0, "";
    for k := 0 to |pieces|
      invariant cursor == Cursor(pieces, k) && chunks == JoinedText(pieces, texts, k) && Abut(pieces, texts, k)
    {
      if pieces[k].rawStart != cursor || pieces[k].pieceId !in texts {
        return false;
      }
      chunks := chunks + texts[pieces[k].pieceId].text;
      cursor := pieces[k].rawEnd;
    }
    return cursor == declaration.chars && h.text(chunks) == textHash;
  }

  function PieceIds(pieces: seq<Declared>): set<string> {
    set p | p in pieces :: p.pieceId
  }

  /** A unit is expected of every undeclared segment, and of every declared piece. */
  ghost predicate Expected(index: Index, unit: string) {
    || (unit in index.coverage && unit !in index.pieces)
    || exists segment :: segment in index.coverage && segment in index.pieces && unit in PieceIds(index.pieces[segment].pieces)
  }

  ghost predicate SegmentsOk(h: Hashes, index: Index, segments: set<string>, texts: map<string, Copy>)
    requires segments <= index.coverage.Keys
  {
    forall segment :: segment in segments && segment in index.pieces ==>
      Reconstructs(h, index.pieces[segment], index.coverage[segment].textHash, texts)
  }

  method CheckSegments(h: Hashes, index: Index, texts: map<string, Copy>) returns (ok: bool, expected: set<string>)
    ensures ok <==> SegmentsOk(h, index, index.coverage.Keys, texts)
    ensures ok ==> forall u :: u in expected <==> Expected(index, u)
  {
    expected := {};
    var rest := index.coverage.Keys;
    ghost var seen: set<string> := {};
    while rest != {}
      invariant seen + rest == index.coverage.Keys && seen !! rest
      invariant SegmentsOk(h, index, seen, texts)
      invariant forall u :: u in expected <==>
                  || (u in seen && u !in index.pieces)
                  || exists s :: s in seen && s in index.pieces && u in PieceIds(index.pieces[s].pieces)
      decreases rest
    {
      var segment :| segment in rest;
      if segment in index.pieces {
        expected := expected + PieceIds(index.pieces[segment].pieces);
        var whole := CheckSegment(h, index.pieces[segment], index.coverage[segment].textHash, texts);
        if !whole {
          return false, expected;
        }
      } else {
        expected := expected + {segment};
      }
      rest := rest - {segment};
      seen := seen + {segment};
    }
    ok := true;
  }

  // ---------------------------------------------------------------------
  // Owners
  // ---------------------------------------------------------------------

  datatype Row = Row(identity: Identity, owner: Candidate, alternatives: seq<Candidate>)

  /** Focal sources first, then the frozen order of the tiles. */
  function Rank(order: map<string, nat>, c: Candidate): Key {
    Key(if c.role == Focal then 0.0 else 1.0, if c.jobId in order then order[c.jobId] as real else 0.0)
  }

  function Ranks(order: map<string, nat>, candidates: seq<Candidate>): (keys: seq<Key>)
    ensures |keys| == |candidates| && forall i :: 0 <= i < |candidates| ==> keys[i] == Rank(order, candidates[i])
  {
    if candidates == [] then []
    else Ranks(order, candidates[..|candidates| - 1]) + [Rank(order, candidates[|candidates| - 1])]
  }

  function Options(order: map<string, nat>, candidates: seq<Candidate>): seq<Candidate> {
    Arranged(candidates, Order(Ranks(order, candidates), |candidates|))
  }

  /** Nothing is lost in sorting, and nobody ranks before the first. */
  lemma OptionsAreSorted(order: map<string, nat>, candidates: seq<Candidate>)
    requires candidates != []
    ensures var options := Options(order, candidates);
            && |options| == |candidates| && (forall c :: c in options <==> c in candidates)
            && forall c :: c in options ==> !Before(Rank(order, c), Rank(order, options[0]))
  {
    var keys, ranks := Ranks(order, candidates), Order(Ranks(order, candidates), |candidates|);
    var options := Arranged(candidates, ranks);
    forall c | c in candidates
      ensures c in options
    {
      var i :| 0 <= i < |candidates| && candidates[i] == c;
      assert i in ranks;
      var k :| 0 <= k < |ranks| && ranks[k] == i;
      assert options[k] == c;
    }
    forall c | c in options
      ensures !Before(Rank(order, c), Rank(order, options[0]))
    {
      var k :| 0 <= k < |options| && options[k] == c;
      assert k > 0 ==> Precedes(keys, ranks[0], ranks[k]);
    }
  }

  function RowOf(order: map<string, nat>, candidates: seq<Candidate>, copy: Copy): Row
    requires candidates != []
  {
    var options := Options(order, candidates);
    OptionsAreSorted(order, candidates);
    Row(copy.identity, options[0], options[1..])
  }

  function OptionsOf(row: Row): seq<Candidate> {
    [row.owner] + row.alternatives
  }

  /** All sources of all jobs, read in order. */
  ghost function AllRead(h: Hashes, index: Index, jobs: seq<Placed>): (readings: seq<Reading>)
    ensures |readings| == |Entries(jobs, |jobs|)|
    ensures forall i :: 0 <= i < |readings| ==> readings[i] == ReadingOf(h, index, Entries(jobs, |jobs|)[i])
  {
    Readings(h, index, Entries(jobs, |jobs|))
  }

  /** Every tile's job is there, every segment is whole, no unit is missing and none is extra. */
  ghost predicate Settled(h: Hashes, index: Index, jobs: seq<Placed>, texts: map<string, Copy>) {
    && (forall t :: t in index.tiles ==> t.jobId in JobIds(jobs, |jobs|))
    && SegmentsOk(h, index, index.coverage.Keys, texts)
    && (forall unit :: Expected(index, unit) <==> unit in texts)
  }

  /** Everything a build requires of the frozen files. */
  ghost predicate Admissible(h: Hashes, index: Index, jobs: seq<Placed>) {
    var readings := AllRead(h, index, jobs);
    && UniqueTiles(index.tiles, |index.tiles|)
    && (forall order :: IsTileOrder(index.tiles, order) ==> JobsOk(h, index.tiles, order, jobs, |jobs|))
    && Checked(readings, |readings|)
    && Settled(h, index, jobs, TextsTo(readings, |readings|))
  }

  /** One row per unit: its one copy, its owner and the other candidates. */
  ghost predicate RowsFor(readings: seq<Reading>, order: map<string, nat>, rows: map<string, Row>) {
    var texts := TextsTo(readings, |readings|);
    && rows.Keys == texts.Keys
    && forall u :: u in rows ==>
         CandidatesFor(readings, u) != [] && rows[u] == RowOf(order, CandidatesFor(readings, u), texts[u])
  }

  /** The rows of an accepted build. */
  ghost predicate Built(h: Hashes, index: Index, jobs: seq<Placed>, order: map<string, nat>, rows: map<string, Row>) {
    IsTileOrder(index.tiles, order) && RowsFor(AllRead(h, index, jobs), order, rows)
  }

  lemma OrderIsOne(tiles: seq<Tile>, a: map<string, nat>, b: map<string, nat>)
    requires IsTileOrder(tiles, a) && IsTileOrder(tiles, b)
    ensures a == b
  {
    forall id | id in a
      ensures id in b && a[id] == b[id]
    {
      assert tiles[a[id]].jobId == id;
    }
    forall id | id in b
      ensures id in a
    {
      assert tiles[b[id]].jobId == id;
    }
  }

  /** There is only one order to judge the jobs by. */
  lemma {:induction false} JobsJudged(h: Hashes, index: Index, jobs: seq<Placed>, order: map<string, nat>)
    requires IsTileOrder(index.tiles, order)
    ensures JobsOk(h, index.tiles, order, jobs, |jobs|)
       <==> forall other :: IsTileOrder(index.tiles, other) ==> JobsOk(h, index.tiles, other, jobs, |jobs|)
  {
    forall other | IsTileOrder(index.tiles, other)
      ensures other == order
    {
      OrderIsOne(index.tiles, other, order);
    }
  }

  lemma {:induction false} JobsInOrder(h: Hashes, tiles: seq<Tile>, order: map<string, nat>, jobs: seq<Placed>, n: nat)
    requires n <= |jobs| && (forall id :: id in order ==> order[id] < |tiles|) && JobsOk(h, tiles, order, jobs, n)
    ensures JobIds(jobs, n) <= order.Keys
  {
    if n > 0 {
      JobsInOrder(h, tiles, order, jobs, n - 1);
    }
  }

  lemma TilesUnread(tiles: seq<Tile>, order: map<string, nat>, ids: set<string>)
    requires IsTileOrder(tiles, order) && ids <= order.Keys
    ensures ids == order.Keys <==> forall t :: t in tiles ==> t.jobId in ids
  {
    if forall t :: t in tiles ==> t.jobId in ids {
      forall id | id in order
        ensures id in ids
      {
        assert tiles[order[id]] in tiles;
      }
    }
    if ids == order.Keys {
      forall t | t in tiles
        ensures t.jobId in ids
      {
        var i :| 0 <= i < |tiles| && tiles[i] == t;
      }
    }
  }

  /** What a build has to find out, once it has the order of the tiles. */
  ghost predicate Fits(h: Hashes, index: Index, jobs: seq<Placed>, order: map<string, nat>, readings: seq<Reading>)
    requires IsTileOrder(index.tiles, order)
  {
    var texts := TextsTo(readings, |readings|);
    && JobsOk(h, index.tiles, order, jobs, |jobs|) && Agreed(readings, |readings|)
    && JobIds(jobs, |jobs|) == order.Keys
    && SegmentsOk(h, index, index.coverage.Keys, texts)
    && (forall unit :: Expected(index, unit) <==> unit in texts)
  }

  lemma FitsIsAdmissible(h: Hashes, index: Index, jobs: seq<Placed>, order: map<string, nat>, readings: seq<Reading>)
    requires UniqueTiles(index.tiles, |index.tiles|) && IsTileOrder(index.tiles, order)
    requires readings == AllRead(h, index, jobs)
    ensures Fits(h, index, jobs, order, readings) <==> Admissible(h, index, jobs)
  {
    AgreedIsChecked(readings, |readings|);
    JobsJudged(h, index, jobs, order);
    if JobsOk(h, index.tiles, order, jobs, |jobs|) {
      JobsInOrder(h, index.tiles, order, jobs, |jobs|);
      TilesUnread(index.tiles, order, JobIds(jobs, |jobs|));
    }
  }

  /** The rows, one for each unit read, when the segments are whole and the units the expected ones. */
  method MakeRows(h: Hashes, index: Index, order: map<string, nat>, candidates: map<string, seq<Candidate>>,
                  texts: map<string, Copy>, ghost readings: seq<Reading>)
    returns (rows: Option<map<string, Row>>)
    requires candidates == CandidatesTo(readings, |readings|) && texts == TextsTo(readings, |readings|)
    ensures rows.Some? <==>
      SegmentsOk(h, index, index.coverage.Keys, texts) && forall unit :: Expected(index, unit) <==> unit in texts
    ensures rows.Some? ==> RowsFor(readings, order, rows.value)
  {
    SameUnits(readings, |readings|);
    var whole, expected := CheckSegments(h, index, texts);
    if !whole || candidates.Keys != expected {
      return None;
    }
    rows := Some(map u | u in candidates :: RowOf(order, candidates[u], texts[u]));
  }

  /** Binds the frozen tiles, or refuses them; it refuses exactly what is not admissible. */
  method Build(h: Hashes, index: Index, jobs: seq<Placed>)
    returns (rows: Option<map<string, Row>>, ghost order: map<string, nat>)
    ensures rows.Some? <==> Admissible(h, index, jobs)
    ensures rows.Some? ==> Built(h, index, jobs, order, rows.value)
  {
    order := map[];
    var tileOrder := IndexTiles(index.tiles);
    if tileOrder.None? {
      return None, order;
    }
    order := tileOrder.value;
    ghost var readings := AllRead(h, index, jobs);
    FitsIsAdmissible(h, index, jobs, order, readings);
    var fit, ids := ReadJobs(h, index.tiles, tileOrder.value, jobs);
    if !fit || ids != tileOrder.value.Keys {
      return None, order;
    }
    var ok, candidates, texts := ReadSources(h, index, Entries(jobs, |jobs|), readings);
    if !ok {
      return None, order;
    }
    rows := MakeRows(h, index, tileOrder.value, candidates, texts, readings);
  }
}
