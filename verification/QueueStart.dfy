/**
 Starting or resuming a run: every saved record is read back and checked, the last
 saved errors are looked at, and the run takes up where its files say it stopped.
 */
module QueueStart {
  import opened Collections
  import opened Wrappers
  import opened QueueSums
  import opened QueueLedger
  import opened QueueSafety
  import opened QueueRunner
  import opened Sorting
  import opened StopReasons

  datatype Refusal = DamagedRecords | PastOverrun | SavedFailureBurst | EarlierFailureStop

  // ---------------------------------------------------------------------
  // Totals and counts
  // ---------------------------------------------------------------------

  function Tallied(k: Counts, f: Files, id: string): Counts {
    if id !in f.attempts then k
    else if id !in f.results then k.(interrupted := k.interrupted + 1)
    else Counted(k, f.results[id].status)
  }

  function Tally(q: Queue, f: Files, n: nat): Counts
    requires n <= |q|
  {
    if n == 0 then Counts(0, 0, 0, 0) else Tallied(Tally(q, f, n - 1), f, q[n - 1].id)
  }

  /** How many of the first `n` jobs are in `ids`. */
  ghost function CountTo(q: Queue, ids: set<string>, n: nat): nat
    requires n <= |q|
  {
    if n == 0 then 0 else CountTo(q, ids, n - 1) + (if q[n - 1].id in ids then 1 else 0)
  }

  lemma {:induction false} TallyCounts(q: Queue, f: Files, n: nat)
    requires n <= |q| && f.results.Keys <= f.attempts.Keys
    ensures Tally(q, f, n) == Counts(CountTo(q, WithStatus(f, Complete), n), CountTo(q, WithStatus(f, NeedsContext), n),
                                     CountTo(q, WithStatus(f, Failed), n), CountTo(q, Unanswered(f), n))
  {
    if n != 0 {
      TallyCounts(q, f, n - 1);
    }
  }

  lemma {:induction false} CountAll(q: Queue, ids: set<string>, n: nat)
    requires DistinctIds(q) && n <= |q|
    requires forall id :: id in ids ==> exists i :: 0 <= i < n && q[i].id == id
    ensures CountTo(q, ids, n) == |ids|
  {
    if n != 0 {
      var id := q[n - 1].id;
      CountAll(q, ids - {id}, n - 1);
      CountWithout(q, ids, id, n - 1);
    }
  }

  lemma {:induction false} CountWithout(q: Queue, ids: set<string>, id: string, n: nat)
    requires n <= |q| && forall i :: 0 <= i < n ==> q[i].id != id
    ensures CountTo(q, ids - {id}, n) == CountTo(q, ids, n)
  {
    if n != 0 {
      CountWithout(q, ids, id, n - 1);
    }
  }

  lemma {:induction false} CountQueued(c: Setup, ids: set<string>)
    requires DistinctIds(c.queue) && ids <= Ids(c.queue)
    ensures CountTo(c.queue, ids, |c.queue|) == |ids|
  {
    forall id | id in ids ensures exists i :: 0 <= i < |c.queue| && c.queue[i].id == id {
      var e :| e in c.queue && e.id == id;
      var i :| 0 <= i < |c.queue| && c.queue[i] == e;
    }
    CountAll(c.queue, ids, |c.queue|);
  }

  lemma {:induction false} TallyIsCounts(c: Setup, f: Files)
    requires DistinctIds(c.queue) && FilesOk(c, f)
    ensures Tally(c.queue, f, |c.queue|) == CountsOf(f, {})
  {
    TallyCounts(c.queue, f, |c.queue|);
    CountQueued(c, WithStatus(f, Complete));
    CountQueued(c, WithStatus(f, NeedsContext));
    CountQueued(c, WithStatus(f, Failed));
    CountQueued(c, Unanswered(f));
    assert Unanswered(f) - {} == Unanswered(f);
  }

  /** No saved cost of the first `n` jobs is above its reservation. */
  ghost predicate NoOverrunAmong(q: Queue, n: nat, f: Files)
    requires n <= |q|
  {
    n == 0 || (NoOverrunAmong(q, n - 1, f) && !Overran(f, q[n - 1].id))
  }

  predicate Overran(f: Files, id: string) {
    id in f.attempts && HasCost(f, id) && f.results[id].cost.value > f.attempts[id]
  }

  lemma {:induction false} NoneOverran(q: Queue, n: nat, f: Files, j: nat)
    requires j < n <= |q| && NoOverrunAmong(q, n, f)
    ensures !Overran(f, q[j].id)
  {
    if j < n - 1 {
      NoneOverran(q, n - 1, f, j);
    }
  }

  lemma {:induction false} NoOverrunAtAll(c: Setup, f: Files)
    requires FilesOk(c, f) && NoOverrunAmong(c.queue, |c.queue|, f)
    ensures !AnyOverrun(f)
  {
    forall id | id in f.attempts ensures !Overran(f, id) {
      var e :| e in c.queue && e.id == id;
      var j :| 0 <= j < |c.queue| && c.queue[j] == e;
      NoneOverran(c.queue, |c.queue|, f, j);
    }
  }

  // ---------------------------------------------------------------------
  // Damaged records
  // ---------------------------------------------------------------------

  /** Saved records are those of queued jobs, with their reservations, and no answer lacks its attempt. */
  ghost predicate RecordsOk(c: Setup, f: Files) {
    DistinctIds(c.queue) && FilesOk(c, f)
  }

  predicate RecordOk(f: Files, e: Entry) {
    if e.id in f.attempts then f.attempts[e.id] == e.reserve else e.id !in f.results
  }

  /** The first `n` jobs have different names and their records are in order. */
  ghost predicate SoundTo(q: Queue, f: Files, n: nat)
    requires n <= |q|
  {
    n == 0 || (SoundTo(q, f, n - 1) && !NamedBefore(q, n - 1, q[n - 1].id) && RecordOk(f, q[n - 1]))
  }

  lemma {:induction false} SoundIsOk(c: Setup, f: Files, n: nat)
    requires RecordsOk(c, f) && n <= |c.queue|
    ensures SoundTo(c.queue, f, n)
  {
    if n != 0 {
      SoundIsOk(c, f, n - 1);
      assert c.queue[n - 1] in c.queue;
    }
  }

  lemma {:induction false} SoundAt(q: Queue, f: Files, n: nat, j: nat)
    requires j < n <= |q| && SoundTo(q, f, n)
    ensures RecordOk(f, q[j]) && !NamedBefore(q, j, q[j].id)
  {
    if j < n - 1 {
      SoundAt(q, f, n - 1, j);
    }
  }

  lemma {:induction false} AllSound(c: Setup, f: Files)
    requires SoundTo(c.queue, f, |c.queue|) && f.attempts.Keys <= Ids(c.queue) && f.results.Keys <= Ids(c.queue)
    ensures RecordsOk(c, f)
  {
    forall e | e in c.queue
      ensures RecordOk(f, e)
    {
      var j :| 0 <= j < |c.queue| && c.queue[j] == e;
      SoundAt(c.queue, f, |c.queue|, j);
    }
    forall i, j | 0 <= i < j < |c.queue|
      ensures c.queue[i].id != c.queue[j].id
    {
      SoundAt(c.queue, f, |c.queue|, j);
    }
    forall id | id in f.results
      ensures id in f.attempts
    {
      var e :| e in c.queue && e.id == id;
    }
  }

  /** Read every saved record back: settled cost, held reservations and the counts by status. */
  method ReadSaved(c: Setup, f: Files) returns (r: Result<(real, real, Counts), Refusal>)
    ensures r.Success? <==> RecordsOk(c, f) && !AnyOverrun(f)
    ensures RecordsOk(c, f) && AnyOverrun(f) ==> r == Failure(PastOverrun)
    ensures r.Success? ==>
      r.value == (Sum(c.queue, CostMap(f)), Sum(c.queue, HoldMap(f, {})), CountsOf(f, {}))
  {
    var q := c.queue;
    var known, held := 0.0, 0.0;
    var counts := Counts(0, 0, 0, 0);
    var seen: set<string> := {};
    var i := 0;
    while i < |q|
      invariant 0 <= i <= |q|
      invariant known == SumTo(q, CostMap(f), i) && held == SumTo(q, HoldMap(f, {}), i)
      invariant counts == Tally(q, f, i)
      invariant NoOverrunAmong(q, i, f)
      invariant SoundTo(q, f, i) && forall id :: id in seen <==> NamedBefore(q, i, id)
    {
      var id := q[i].id;
      if id in seen || !RecordOk(f, q[i]) {
        NotSound(c, f, i + 1);
        return Failure(DamagedRecords);
      }
      assert SumTo(q, CostMap(f), i + 1) == known + At(CostMap(f), id);
      assert SumTo(q, HoldMap(f, {}), i + 1) == held + At(HoldMap(f, {}), id);
      counts := Tallied(counts, f, id);
      if id in f.attempts {
        if HasCost(f, id) {
          known := known + f.results[id].cost.value;
          if f.results[id].cost.value > f.attempts[id] {
            return Failure(PastOverrun);
          }
        } else {
          held := held + f.attempts[id];
        }
      }
      seen := seen + {id};
      i := i + 1;
    }
    SeenIsAll(q, seen);
    if !(f.attempts.Keys <= seen && f.results.Keys <= seen) {
      return Failure(DamagedRecords);
    }
    AllSound(c, f);
    TallyIsCounts(c, f);
    NoOverrunAtAll(c, f);
    return Success((known, held, counts));
  }

  lemma {:induction false} NotSound(c: Setup, f: Files, n: nat)
    requires n <= |c.queue| && !SoundTo(c.queue, f, n)
    ensures !RecordsOk(c, f)
  {
    if RecordsOk(c, f) {
      SoundIsOk(c, f, n);
    }
  }

  // ---------------------------------------------------------------------
  // The last saved errors
  // ---------------------------------------------------------------------

  const RECENT := 16

  /** The attempted ones among the first `n` jobs. */
  function Attempted(q: Queue, f: Files, n: nat): (ids: seq<string>)
    requires n <= |q|
    ensures forall id :: id in ids ==> id in f.attempts
  {
    if n == 0 then [] else Attempted(q, f, n - 1) + (if q[n - 1].id in f.attempts then [q[n - 1].id] else [])
  }

  function Stamps(ids: seq<string>, startedAt: string -> Key): (keys: seq<Key>)
    ensures |keys| == |ids| && forall i :: 0 <= i < |ids| ==> keys[i] == startedAt(ids[i])
  {
    seq(|ids|, i requires 0 <= i < |ids| => startedAt(ids[i]))
  }

  function LastOf<T>(s: seq<T>, n: nat): seq<T> {
    if |s| <= n then s else s[|s| - n..]
  }

  /** The attempts in order of their start times, the names deciding between equal times. */
  function ByStart(ids: seq<string>, startedAt: string -> Key): (sorted: seq<string>)
    ensures |sorted| == |ids|
  {
    Arranged(ids, Order(Stamps(ids, startedAt), |ids|))
  }

  function KindOf(f: Files, id: string): ErrorKind {
    if id in f.results then f.results[id].error else InterruptedError
  }

  function Kinds(f: Files, ids: seq<string>): seq<ErrorKind> {
    seq(|ids|, i requires 0 <= i < |ids| => KindOf(f, ids[i]))
  }

  function LatestAttempts(q: Queue, f: Files, startedAt: string -> Key): seq<string> {
    LastOf(ByStart(Attempted(q, f, |q|), startedAt), RECENT)
  }

  function RecentSaved(q: Queue, f: Files, startedAt: string -> Key): seq<ErrorKind> {
    Kinds(f, LatestAttempts(q, f, startedAt))
  }

  lemma {:induction false} AttemptedAre(q: Queue, f: Files, n: nat, id: string)
    requires n <= |q|
    ensures id in Attempted(q, f, n) <==> NamedBefore(q, n, id) && id in f.attempts
  {
    if n != 0 {
      AttemptedAre(q, f, n - 1, id);
    }
  }

  lemma {:induction false} SortedByStart(ids: seq<string>, startedAt: string -> Key)
    ensures forall x :: x in ByStart(ids, startedAt) <==> x in ids
    ensures var sorted := ByStart(ids, startedAt);
            forall i, j :: 0 <= i < j < |sorted| ==> !Before(startedAt(sorted[j]), startedAt(sorted[i]))
  {
    var keys := Stamps(ids, startedAt);
    var order := Order(keys, |ids|);
    assert IsOrder(keys, order, |ids|);
    forall x | x in ids
      ensures x in ByStart(ids, startedAt)
    {
      var i: nat :| i < |ids| && ids[i] == x;
      assert i in order;
      var k :| 0 <= k < |order| && order[k] == i;
      assert ByStart(ids, startedAt)[k] == x;
    }
  }

  lemma LastAreLater<T>(s: seq<T>, n: nat, x: T, y: T) returns (i: nat, j: nat)
    requires x in LastOf(s, n) && y in s && y !in LastOf(s, n)
    ensures |LastOf(s, n)| == n && i < j < |s| && s[i] == y && s[j] == x
  {
    var last := LastOf(s, n);
    i :| i < |s| && s[i] == y;
    var k :| 0 <= k < |last| && last[k] == x;
    j := |s| - n + k;
    assert i < |s| - n by {
      assert forall m :: |s| - n <= m < |s| ==> s[m] == last[m - (|s| - n)];
    }
  }

  /** The saved errors looked at are those of the sixteen attempts started last, or of all when there are no more. */
  lemma {:induction false} RecentAreLatest(q: Queue, f: Files, startedAt: string -> Key, x: string, y: string)
    requires x in LatestAttempts(q, f, startedAt)
    requires y !in LatestAttempts(q, f, startedAt) && NamedBefore(q, |q|, y) && y in f.attempts
    ensures |LatestAttempts(q, f, startedAt)| == RECENT
    ensures NamedBefore(q, |q|, x) && x in f.attempts && !Before(startedAt(x), startedAt(y))
  {
    var ids := Attempted(q, f, |q|);
    SortedByStart(ids, startedAt);
    AttemptedAre(q, f, |q|, x);
    AttemptedAre(q, f, |q|, y);
    var i, j := LastAreLater(ByStart(ids, startedAt), RECENT, x, y);
  }

  lemma {:induction false} AttemptedOnce(q: Queue, f: Files, n: nat)
    requires n <= |q| && DistinctIds(q)
    ensures Distinct(Attempted(q, f, n))
  {
    if n != 0 {
      AttemptedOnce(q, f, n - 1);
      AttemptedAre(q, f, n - 1, q[n - 1].id);
    }
  }

  lemma {:induction false} AttemptedAll(q: Queue, f: Files)
    requires f.attempts.Keys <= Ids(q)
    ensures (set id | id in Attempted(q, f, |q|)) == f.attempts.Keys
  {
    forall id
      ensures id in IdsTo(q, |q|) <==> NamedBefore(q, |q|, id)
      ensures id in Attempted(q, f, |q|) <==> NamedBefore(q, |q|, id) && id in f.attempts
    {
      InPrefix(q, |q|, id);
      AttemptedAre(q, f, |q|, id);
    }
    SeenIsAll(q, IdsTo(q, |q|));
  }

  lemma {:induction false} ByStartOnce(ids: seq<string>, startedAt: string -> Key)
    requires Distinct(ids)
    ensures Distinct(ByStart(ids, startedAt))
  {
    var keys := Stamps(ids, startedAt);
    var order := Order(keys, |ids|);
    assert forall i, j :: 0 <= i < j < |order| ==> Precedes(keys, order[i], order[j]);
  }

  lemma DistinctSize(ids: seq<string>, all: set<string>)
    requires Distinct(ids) && (set id | id in ids) == all
    ensures |ids| == |all|
    decreases |ids|
  {
    if ids != [] {
      var front, last := ids[..|ids| - 1], ids[|ids| - 1];
      assert ids == front + [last];
      assert (set id | id in front) == all - {last};
      DistinctSize(front, all - {last});
    } else {
      assert all == {};
    }
  }

  /** Ascending by start, each once. */
  ghost predicate InOrder(ids: seq<string>, startedAt: string -> Key) {
    forall i, j :: 0 <= i < j < |ids| ==> ids[i] != ids[j] && !Before(startedAt(ids[j]), startedAt(ids[i]))
  }

  lemma LastInOrder(ids: seq<string>, startedAt: string -> Key, n: nat)
    requires InOrder(ids, startedAt)
    ensures InOrder(LastOf(ids, n), startedAt)
  {
  }

  lemma {:induction false} KindsAre(f: Files, ids: seq<string>)
    ensures |Kinds(f, ids)| == |ids|
    ensures forall i :: 0 <= i < |ids| ==>
              Kinds(f, ids)[i] == if ids[i] in f.results then f.results[ids[i]].error else InterruptedError
  {
  }

  lemma {:induction false} LatestInOrder(q: Queue, f: Files, startedAt: string -> Key)
    requires DistinctIds(q) && f.attempts.Keys <= Ids(q)
    ensures var ids := LatestAttempts(q, f, startedAt);
            InOrder(ids, startedAt) && |ids| == (if |f.attempts.Keys| < 16 then |f.attempts.Keys| else 16)
  {
    var ids := Attempted(q, f, |q|);
    AttemptedOnce(q, f, |q|);
    AttemptedAll(q, f);
    DistinctSize(ids, f.attempts.Keys);
    SortedByStart(ids, startedAt);
    ByStartOnce(ids, startedAt);
    assert InOrder(ByStart(ids, startedAt), startedAt);
    LastInOrder(ByStart(ids, startedAt), startedAt, RECENT);
  }

  /**
   The saved errors come in order of the start times, one for each of the attempts
   looked at, an attempt without an answer counting as interrupted; there are sixteen
   of them, or as many as there are attempts.
   */
  lemma {:induction false} RecentInOrder(q: Queue, f: Files, startedAt: string -> Key)
    requires DistinctIds(q) && f.attempts.Keys <= Ids(q)
    ensures var ids, errors := LatestAttempts(q, f, startedAt), RecentSaved(q, f, startedAt);
            && InOrder(ids, startedAt)
            && |errors| == |ids| == (if |f.attempts.Keys| < 16 then |f.attempts.Keys| else 16)
            && forall i :: 0 <= i < |ids| ==>
                 errors[i] == if ids[i] in f.results then f.results[ids[i]].error else InterruptedError
  {
    LatestInOrder(q, f, startedAt);
    KindsAre(f, LatestAttempts(q, f, startedAt));
  }

  /** The attempts listed as the records are read. */
  method PastAttempts(q: Queue, f: Files) returns (ids: seq<string>)
    ensures ids == Attempted(q, f, |q|)
  {
    ids := [];
    for i := 0 to |q|
      invariant ids == Attempted(q, f, i)
    {
      if q[i].id in f.attempts {
        ids := ids + [q[i].id];
      }
    }
  }

  // ---------------------------------------------------------------------
  // Starting
  // ---------------------------------------------------------------------

  /** Some saved cost is above its attempt's reservation. */
  ghost predicate Overspent(f: Files) {
    exists id :: id in f.attempts && id in f.results && f.results[id].cost.Some?
                 && f.attempts[id] < f.results[id].cost.value
  }

  ghost predicate TooManyErrors(c: Setup, errors: seq<ErrorKind>) {
    multiset(errors)[ProviderError] >= 4 || (!c.qualityTrial && multiset(errors)[ValidationError] >= 8)
  }

  lemma OverrunIsOverspent(f: Files)
    ensures AnyOverrun(f) <==> Overspent(f)
  {
    if AnyOverrun(f) {
      var id :| id in f.attempts && HasCost(f, id) && f.attempts[id] < f.results[id].cost.value;
      assert f.results[id].cost.Some?;
    }
    if Overspent(f) {
      var id :| id in f.attempts && id in f.results && f.results[id].cost.Some? && f.attempts[id] < f.results[id].cost.value;
      assert HasCost(f, id);
    }
  }

  /** Start or resume a run on its saved files, or refuse to. */
  method Start(c: Setup, saved: Files, startedAt: string -> Key, remaining: real, ghost past: State)
    returns (r: Result<QueueRun, Refusal>)
    requires ValidSetup(c) && Leads(c, Fresh, past) && past.mem.Down? && past.working == saved
    ensures r != Failure(DamagedRecords)
    ensures r == Failure(PastOverrun) <==> Overspent(saved)
    ensures r == Failure(SavedFailureBurst) <==>
              !Overspent(saved) && TooManyErrors(c, RecentSaved(c.queue, saved, startedAt))
    ensures r == Failure(EarlierFailureStop) <==>
              !Overspent(saved) && !TooManyErrors(c, RecentSaved(c.queue, saved, startedAt)) && ShowsFailure(saved)
    ensures r.Success? ==> fresh(r.value) && r.value.c == c && r.value.Valid()
                           && r.value.View() == Resumed(c, past, remaining, RecentSaved(c.queue, saved, startedAt))
    ensures r.Success? ==>
              var withheld := Sum(c.queue, HoldMap(saved, {})) + c.carried;
              var settled := Sum(c.queue, CostMap(saved));
              && r.value.allowance + withheld <= remaining && r.value.allowance + settled + withheld <= c.budget
              && (r.value.allowance + withheld == remaining || r.value.allowance + settled + withheld == c.budget)
  {
    ReachedKeeps(c, past);
    OverrunIsOverspent(saved);
    var read := ReadSaved(c, saved);
    if read.Failure? {
      return Failure(read.error);
    }
    var ids := PastAttempts(c.queue, saved);
    var recentSaved := Kinds(saved, LastOf(ByStart(ids, startedAt), RECENT));
    if BurstStop(c, recentSaved) {
      return Failure(SavedFailureBurst);
    }
    if NeedsReconciliation(saved) {
      return Failure(EarlierFailureStop);
    }
    var (known, held, counts) := read.value;
    var run := new QueueRun(c, saved, known, held, remaining, counts, recentSaved, past);
    Resumes(c, past, remaining, recentSaved);
    return Success(run);
  }
}
