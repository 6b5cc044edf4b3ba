/**
 When the shared cap holds for every way a run may spend, and a chain every
 transition accepts and every ledger keeps whose spending is above it: a reviewed
 trial between the two arms, after which the second arm states the prior cost
 afresh. The runs are really played: each has a legal ledger history that leads to
 its saved files, and the records of the whole chain are archived.
 */
module CapGap {
  import opened Wrappers
  import opened QueueSums
  import opened QueueLedger
  import opened QueueSafety
  import opened BudgetChain
  import opened HistoryWalk
  import opened CompleteWalk
  import opened PlayedRuns

  // ---------------------------------------------------------------------
  // The exact condition of the cap
  // ---------------------------------------------------------------------

  /** Each of the first `n` jobs with its reservation. */
  function ReserveMap(q: Queue, n: nat): map<string, real>
    requires n <= |q|
  {
    if n == 0 then map[] else ReserveMap(q, n - 1)[q[n - 1].id := q[n - 1].reserve]
  }

  lemma {:induction false} ReserveAt(q: Queue, n: nat, j: nat)
    requires DistinctIds(q) && j < n <= |q|
    ensures q[j].id in ReserveMap(q, n) && ReserveMap(q, n)[q[j].id] == q[j].reserve
  {
    if j < n - 1 {
      ReserveAt(q, n - 1, j);
    }
  }

  lemma {:induction false} ReserveAll(q: Queue)
    requires DistinctIds(q)
    ensures forall e :: e in q ==> e.id in ReserveMap(q, |q|) && ReserveMap(q, |q|)[e.id] == e.reserve
  {
    forall e | e in q
      ensures e.id in ReserveMap(q, |q|) && ReserveMap(q, |q|)[e.id] == e.reserve
    {
      var j :| 0 <= j < |q| && q[j] == e;
      ReserveAt(q, |q|, j);
    }
  }

  lemma {:induction false} ReservesAddUp(q: Queue, m: map<string, real>, n: nat)
    requires n <= |q| && forall e :: e in q ==> At(m, e.id) == e.reserve
    ensures SumTo(q, m, n) == Reserved(q, n)
  {
    if n != 0 {
      ReservesAddUp(q, m, n - 1);
      assert q[n - 1] in q;
    }
  }

  /** A run no charge of which overran cannot pay and hold more than all its reservations. */
  lemma KeepsToReservations(r: Run)
    requires Played(r) && !AnyOverrun(r.files)
    ensures Known(r) + Unknown(r) <= Reserved(r.queue, |r.queue|)
  {
    var c, m := SetupOf(r), ReserveMap(r.queue, |r.queue|);
    var s: State :| Leads(c, Fresh, s) && s.working == r.files;
    ReachedKeeps(c, s);
    ReserveAll(r.queue);
    ReservesAddUp(r.queue, m, |r.queue|);
    LedgerSplits(r.queue, r.files, {});
    assert FlightMap(r.files, {}) == map[];
    SumZero(r.queue);
    SumMonotone(r.queue, LedgerMap(r.files), m);
  }

  /** The chain with other files for its last run. */
  function WithFiles(runs: seq<Run>, f: Files): seq<Run>
    requires runs != []
  {
    Front(runs) + [Last(runs).(files := f)]
  }

  /** The last run can leave these files without any charge above its reservation. */
  ghost predicate MayLeave(runs: seq<Run>, f: Files)
    requires runs != []
  {
    Played(Last(runs).(files := f)) && !AnyOverrun(f)
  }

  ghost predicate StaysWithin(runs: seq<Run>, f: Files, cap: real)
    requires runs != []
  {
    Paid(WithFiles(runs, f)) + Held(WithFiles(runs, f)) <= cap
  }

  /** However the last run spends within its reservations, the chain stays within the cap. */
  ghost predicate CannotPass(runs: seq<Run>, cap: real)
    requires runs != []
  {
    forall f :: MayLeave(runs, f) ==> StaysWithin(runs, f, cap)
  }

  lemma WithFilesTotals(runs: seq<Run>, f: Files)
    requires |runs| >= 2
    ensures var r := Last(runs).(files := f);
            Paid(WithFiles(runs, f)) + Held(WithFiles(runs, f)) == Paid(Front(runs)) + Held(Front(runs)) + Known(r) + Unknown(r)
  {
    assert Front(WithFiles(runs, f)) == Front(runs);
  }

  /** The last run may charge every job its whole reservation. */
  lemma SpendsEverything(runs: seq<Run>) returns (f: Files)
    requires runs != [] && Startable(Last(runs))
    requires Reserved(Last(runs).queue, |Last(runs).queue|) + Last(runs).config.carried <= Last(runs).config.budget
    ensures MayLeave(runs, f)
    ensures Known(Last(runs).(files := f)) == Reserved(Last(runs).queue, |Last(runs).queue|)
    ensures Unknown(Last(runs).(files := f)) == 0.0
  {
    var q := Last(runs).queue;
    var m := ReserveMap(q, |q|);
    ReserveAll(q);
    ReservesAddUp(q, m, |q|);
    assert Startable(Run(Last(runs).config, q, NoFiles));
    var r := PlaysAt(Last(runs).config, q, m);
    f := r.files;
    assert Last(runs).(files := f) == r;
  }

  /**
   The cap of an accepted chain holds, however its last run spends within its reservations, if and only if
   those reservations fit in what the chain before it has left of the cap.
   */
  lemma {:induction false} CapHoldsExactly(digest: Config -> Hash, runs: seq<Run>)
    requires Chain(digest, runs) && Startable(Last(runs))
    ensures runs[1].config.trial.Some?
    ensures var cap := runs[1].config.trial.value.cap;
            var left := cap - Paid(Front(runs)) - Held(Front(runs));
            CannotPass(runs, cap) <==> Reserved(Last(runs).queue, |Last(runs).queue|) <= left
  {
    HeadroomAfter(digest, runs);
    AcceptedCarries(digest, runs);
    var cap := runs[1].config.trial.value.cap;
    var f := SpendsEverything(runs);
    WithFilesTotals(runs, f);
    assert CannotPass(runs, cap) ==> StaysWithin(runs, f, cap);
    forall g | MayLeave(runs, g)
      ensures Paid(WithFiles(runs, g)) + Held(WithFiles(runs, g))
           <= Paid(Front(runs)) + Held(Front(runs)) + Reserved(Last(runs).queue, |Last(runs).queue|)
    {
      WithFilesTotals(runs, g);
      KeepsToReservations(Last(runs).(files := g));
    }
  }

  /** What a transition lets the last run reserve: what is left of the cap, and what second arms have dropped. */
  lemma {:induction false} AcceptedReserves(digest: Config -> Hash, runs: seq<Run>)
    requires Chain(digest, runs)
    ensures runs[1].config.trial.Some?
    ensures Reserved(Last(runs).queue, |Last(runs).queue|)
         <= runs[1].config.trial.value.cap - Paid(Front(runs)) - Held(Front(runs)) + Dropped(runs)
  {
    HeadroomAfter(digest, runs);
    AcceptedCarries(digest, runs);
  }

  // ---------------------------------------------------------------------
  // Even runs
  // ---------------------------------------------------------------------

  /** Distinct job names: the `i`th is `i` letters long. */
  function JobId(i: nat): string {
    seq(i, _ => 'x')
  }

  function EvenQueue(n: nat): Queue {
    seq(n, i requires 0 <= i < n => Entry(JobId(i), 0.02))
  }

  lemma EvenQueueDistinct(n: nat)
    ensures DistinctIds(EvenQueue(n))
  {
    var q := EvenQueue(n);
    forall i, j | 0 <= i < j < n ensures q[i].id != q[j].id {
      assert |q[i].id| == i && |q[j].id| == j;
    }
  }

  lemma {:induction false} EvenSums(q: Queue, m: map<string, real>, each: real, n: nat)
    requires n <= |q| && forall e :: e in q ==> At(m, e.id) == each
    ensures SumTo(q, m, n) == n as real * each
  {
    if n != 0 {
      EvenSums(q, m, each, n - 1);
      assert q[n - 1] in q;
    }
  }

  lemma {:induction false} EvenReserved(q: Queue, each: real, n: nat)
    requires n <= |q| && forall e :: e in q ==> e.reserve == each
    ensures Reserved(q, n) == n as real * each
  {
    if n != 0 {
      EvenReserved(q, each, n - 1);
      assert q[n - 1] in q;
    }
  }

  function EvenPrice(n: nat, price: real): map<string, real> {
    map id | id in Ids(EvenQueue(n)) :: price
  }

  function Jobs(n: nat, h: Hash): map<string, Hash> {
    map id | id in Ids(EvenQueue(n)) :: h
  }

  lemma SameIds(n: nat)
    ensures Ids(EvenQueue(n)) == set i | 0 <= i < n :: JobId(i)
  {
    var q := EvenQueue(n);
    forall i | 0 <= i < n ensures JobId(i) in Ids(q) {
      assert q[i] in q && q[i].id == JobId(i);
    }
  }

  lemma JobsCount(n: nat, h: Hash)
    ensures |Jobs(n, h)| == n
  {
    EvenQueueDistinct(n);
    DistinctCount(EvenQueue(n));
    assert Jobs(n, h).Keys == Ids(EvenQueue(n));
  }

  lemma JobsNest(n: nat, m: nat, h: Hash)
    requires n <= m
    ensures forall id :: id in Jobs(n, h) ==> id in Jobs(m, h) && Jobs(m, h)[id] == Jobs(n, h)[id]
  {
    SameIds(n);
    SameIds(m);
  }

  /** What is known of a run played to its end: what its jobs reserved, and what it paid. */
  ghost predicate EvenlyPlayed(r: Run, room: real, total: real) {
    && Played(r) && Readable(r) && AllAttempted(r) && RunsOut(r.files)
    && Known(r) == total && Unknown(r) == 0.0
    && Reserved(r.queue, |r.queue|) == room
  }

  lemma EvenTotals(n: nat, price: real, room: real, total: real)
    requires room == n as real * 0.02 && total == n as real * price
    ensures DistinctIds(EvenQueue(n)) && Reserved(EvenQueue(n), |EvenQueue(n)|) == room
    ensures Sum(EvenQueue(n), EvenPrice(n, price)) == total
  {
    var q := EvenQueue(n);
    EvenQueueDistinct(n);
    assert |q| == n;
    EvenReserved(q, 0.02, n);
    EvenSums(q, EvenPrice(n, price), price, n);
  }

  lemma EvenStart(config: Config, n: nat, h: Hash)
    requires config.jobs == Jobs(n, h) && ConfigOk(config) && NamesPrior(config) && DistinctIds(EvenQueue(n))
    ensures Startable(Run(config, EvenQueue(n), NoFiles))
  {
    assert Jobs(n, h).Keys == Ids(EvenQueue(n));
  }

  /** A run of `n` jobs that each reserve two cents and are each charged `price`. */
  lemma EvenRun(config: Config, n: nat, h: Hash, price: real, room: real, total: real) returns (r: Run)
    requires config.jobs == Jobs(n, h) && ConfigOk(config) && NamesPrior(config) && 0.0 <= price <= 0.02
    requires room == n as real * 0.02 && total == n as real * price && room + config.carried <= config.budget
    ensures r.config == config && EvenlyPlayed(r, room, total)
  {
    EvenTotals(n, price, room, total);
    EvenStart(config, n, h);
    r := PlaysAt(config, EvenQueue(n), EvenPrice(n, price));
  }

  // ---------------------------------------------------------------------
  // The chain
  // ---------------------------------------------------------------------

  /** The three-job probe before the quality trial. */
  function ProbeConfig(h: Hash): Config {
    Config("probe", ProbeMode, 0.1, 0.0, None, None, None, false, false, false, false, 1,
           "key", "recipe", "model", "route", 360, Jobs(3, h))
  }

  /** The quality trial, taken over from the probe through the bridge: the baseline of the experiment. */
  function BaseAfter(digest: Config -> Hash, probe: Config, jobs: map<string, Hash>): Config {
    probe.(runId := "base", mode := FullMode, budget := 5.0, prior := Some(PriorRun(probe.runId, digest(probe), 0.015, 0.0)),
           quality := true, jobs := jobs)
  }

  function FirstAfter(digest: Config -> Hash, base: Config, jobs: map<string, Hash>): Config {
    base.(runId := "first", budget := 0.75, prior := Some(PriorRun(base.runId, digest(base), 1.05, 0.0)),
          trial := Some(Trial("arms", NoneArm, 0.75, 0.0, base.runId, digest(base), 1.05, 0.0)), quality := false, jobs := jobs)
  }

  function TrialAfter(digest: Config -> Hash, first: Config): Config
    requires first.trial.Some?
  {
    first.(runId := "trial", budget := 0.60, prior := Some(PriorRun(first.runId, digest(first), 0.15, 0.0)),
           trial := Some(first.trial.value.(priorCost := 0.15)), reviewed := true)
  }

  function SecondAfter(digest: Config -> Hash, trial: Config): Config
    requires trial.trial.Some?
  {
    trial.(runId := "second", prior := Some(PriorRun(trial.runId, digest(trial), 0.15, 0.0)),
           trial := Some(trial.trial.value.(arm := LowArm)), reviewed := false)
  }

  /** A configuration nothing is carried into, in order, of a run with the given number of jobs. */
  ghost predicate Plain(c: Config, runId: string, jobs: nat) {
    c.runId == runId && c.carried == 0.0 && |c.jobs| == jobs && ConfigOk(c) && NamesPrior(c) && c.concurrency == 1
  }

  ghost predicate FirstArmOf(c: Config) {
    && c.trial.Some? && c.mode == FullMode && !c.quality && c.recovery.None? && !c.unitTrial && !c.sample
    && c.trial.value.arm == NoneArm && c.trial.value.cap == 0.75 && c.trial.value.baselineUnknown == 0.0
    && c.timeout == 360
  }

  lemma ProbeIsPlain(h: Hash)
    ensures Plain(ProbeConfig(h), "probe", 3)
  {
    JobsCount(3, h);
  }

  lemma BaseIsPlain(digest: Config -> Hash, h: Hash)
    ensures Plain(BaseAfter(digest, ProbeConfig(h), Jobs(210, h)), "base", 210)
  {
    JobsCount(210, h);
  }

  lemma FirstIsPlain(digest: Config -> Hash, base: Config, h: Hash)
    requires base == BaseAfter(digest, ProbeConfig(h), Jobs(210, h))
    ensures var c := FirstAfter(digest, base, Jobs(30, h)); Plain(c, "first", 30) && FirstArmOf(c) && c.trial.value.priorCost == 0.0
  {
    JobsCount(30, h);
  }

  lemma TrialIsPlain(digest: Config -> Hash, first: Config)
    requires Plain(first, "first", 30) && FirstArmOf(first)
    ensures var c := TrialAfter(digest, first); Plain(c, "trial", 30) && FirstArmOf(c) && c.trial.value.priorCost == 0.15
  {
  }

  lemma SecondIsPlain(digest: Config -> Hash, trial: Config)
    requires Plain(trial, "trial", 30) && FirstArmOf(trial) && trial.budget == 0.60 && trial.trial.value.priorCost == 0.15
    ensures Plain(SecondAfter(digest, trial), "second", 30)
  {
  }

  lemma BaseAccepted(digest: Config -> Hash, p: Run, n: Run)
    requires Plain(p.config, "probe", 3) && p.config.mode == ProbeMode && EvenlyPlayed(p, 0.06, 0.015)
    requires Plain(n.config, "base", 210) && n.config == BaseAfter(digest, p.config, n.config.jobs) && EvenlyPlayed(n, 4.20, 1.05)
    requires SameJobs(n.config, p.config)
    ensures Transition(OpenBaseline, digest, p, n) == Accepted
  {
  }

  lemma FirstCarries(digest: Config -> Hash, p: Run, n: Run)
    requires Plain(p.config, "base", 210) && EvenlyPlayed(p, 4.20, 1.05)
    requires Plain(n.config, "first", 30) && n.config == FirstAfter(digest, p.config, n.config.jobs) && EvenlyPlayed(n, 0.60, 0.15)
    ensures CarriesOver(digest, p, n)
  {
  }

  lemma FirstArmIsAccepted(digest: Config -> Hash, p: Run, n: Run)
    requires FirstArm(digest, p, n)
    ensures Transition(OpenFirst, digest, p, n) == Accepted
  {
  }

  lemma FirstAccepted(digest: Config -> Hash, p: Run, n: Run)
    requires Plain(p.config, "base", 210) && p.config.quality && EvenlyPlayed(p, 4.20, 1.05)
    requires Plain(n.config, "first", 30) && n.config == FirstAfter(digest, p.config, n.config.jobs) && EvenlyPlayed(n, 0.60, 0.15)
    requires SameJobs(p.config, n.config)
    ensures Transition(OpenFirst, digest, p, n) == Accepted
  {
    FirstCarries(digest, p, n);
    assert Bounds(n.config);
    assert Matched(digest, p, n);
    FirstArmIsAccepted(digest, p, n);
  }

  lemma AcceptedCarriesOver(kind: Kind, digest: Config -> Hash, p: Run, n: Run)
    requires Transition(kind, digest, p, n) == Accepted
    ensures CarriesOver(digest, p, n)
  {
  }

  lemma ReviewedIsAccepted(digest: Config -> Hash, p: Run, n: Run)
    requires Reviewed(digest, p, n)
    ensures Transition(Review, digest, p, n) == Accepted
  {
  }

  lemma TrialCarries(digest: Config -> Hash, p: Run, n: Run)
    requires Plain(p.config, "first", 30) && FirstArmOf(p.config) && EvenlyPlayed(p, 0.60, 0.15)
    requires Plain(n.config, "trial", 30) && n.config == TrialAfter(digest, p.config) && EvenlyPlayed(n, 0.60, 0.15)
    ensures CarriesOver(digest, p, n)
  {
  }

  lemma TrialAccepted(digest: Config -> Hash, p: Run, n: Run)
    requires Plain(p.config, "first", 30) && FirstArmOf(p.config) && p.config.trial.value.priorCost == 0.0 && EvenlyPlayed(p, 0.60, 0.15)
    requires Plain(n.config, "trial", 30) && n.config == TrialAfter(digest, p.config) && EvenlyPlayed(n, 0.60, 0.15)
    ensures Transition(Review, digest, p, n) == Accepted
  {
    TrialCarries(digest, p, n);
    assert Bounds(n.config);
    assert AddsPriorCost(digest, p, n);
    ReviewedIsAccepted(digest, p, n);
  }

  lemma SecondCarries(digest: Config -> Hash, p: Run, n: Run)
    requires Plain(p.config, "trial", 30) && FirstArmOf(p.config) && EvenlyPlayed(p, 0.60, 0.15) && p.config.budget == 0.60
    requires Plain(n.config, "second", 30) && n.config == SecondAfter(digest, p.config) && EvenlyPlayed(n, 0.60, 0.60)
    ensures CarriesOver(digest, p, n)
  {
  }

  lemma SecondIsAccepted(digest: Config -> Hash, p: Run, n: Run)
    requires SecondArm(digest, p, n)
    ensures Transition(OpenSecond, digest, p, n) == Accepted
  {
  }

  lemma SecondAccepted(digest: Config -> Hash, p: Run, n: Run)
    requires Plain(p.config, "trial", 30) && FirstArmOf(p.config) && EvenlyPlayed(p, 0.60, 0.15) && p.config.budget == 0.60
    requires Plain(n.config, "second", 30) && n.config == SecondAfter(digest, p.config) && EvenlyPlayed(n, 0.60, 0.60)
    ensures Transition(OpenSecond, digest, p, n) == Accepted
  {
    SecondCarries(digest, p, n);
    assert Matched(digest, p, n);
    SecondIsAccepted(digest, p, n);
  }

  lemma PlayBase(digest: Config -> Hash, h: Hash) returns (probe: Run, base: Run)
    ensures EvenlyPlayed(probe, 0.06, 0.015) && Plain(probe.config, "probe", 3)
    ensures EvenlyPlayed(base, 4.20, 1.05) && base.config == BaseAfter(digest, ProbeConfig(h), Jobs(210, h))
    ensures Plain(base.config, "base", 210) && base.config.quality
    ensures Transition(OpenBaseline, digest, probe, base) == Accepted && CarriesOver(digest, probe, base)
  {
    ProbeIsPlain(h);
    probe := EvenRun(ProbeConfig(h), 3, h, 0.005, 0.06, 0.015);
    BaseIsPlain(digest, h);
    base := EvenRun(BaseAfter(digest, ProbeConfig(h), Jobs(210, h)), 210, h, 0.005, 4.20, 1.05);
    JobsNest(3, 210, h);
    BaseAccepted(digest, probe, base);
    AcceptedCarriesOver(OpenBaseline, digest, probe, base);
  }

  lemma PlayFirst(digest: Config -> Hash, h: Hash, base: Run) returns (first: Run)
    requires EvenlyPlayed(base, 4.20, 1.05) && base.config == BaseAfter(digest, ProbeConfig(h), Jobs(210, h))
    requires Plain(base.config, "base", 210) && base.config.quality
    ensures EvenlyPlayed(first, 0.60, 0.15) && Plain(first.config, "first", 30) && FirstArmOf(first.config)
    ensures first.config.jobs == Jobs(30, h) && first.config.trial.value.priorCost == 0.0
    ensures Transition(OpenFirst, digest, base, first) == Accepted && CarriesOver(digest, base, first)
  {
    FirstIsPlain(digest, base.config, h);
    first := EvenRun(FirstAfter(digest, base.config, Jobs(30, h)), 30, h, 0.005, 0.60, 0.15);
    JobsNest(30, 210, h);
    FirstAccepted(digest, base, first);
    AcceptedCarriesOver(OpenFirst, digest, base, first);
  }

  lemma PlayTrial(digest: Config -> Hash, h: Hash, first: Run) returns (trial: Run)
    requires EvenlyPlayed(first, 0.60, 0.15) && Plain(first.config, "first", 30) && FirstArmOf(first.config)
    requires first.config.jobs == Jobs(30, h) && first.config.trial.value.priorCost == 0.0
    ensures EvenlyPlayed(trial, 0.60, 0.15) && Plain(trial.config, "trial", 30) && FirstArmOf(trial.config)
    ensures trial.config.jobs == Jobs(30, h) && trial.config.trial.value.priorCost == 0.15 && trial.config.budget == 0.60
    ensures Transition(Review, digest, first, trial) == Accepted && CarriesOver(digest, first, trial)
  {
    TrialIsPlain(digest, first.config);
    trial := EvenRun(TrialAfter(digest, first.config), 30, h, 0.005, 0.60, 0.15);
    TrialAccepted(digest, first, trial);
    AcceptedCarriesOver(Review, digest, first, trial);
  }

  lemma PlaySecond(digest: Config -> Hash, h: Hash, trial: Run) returns (second: Run)
    requires EvenlyPlayed(trial, 0.60, 0.15) && Plain(trial.config, "trial", 30) && FirstArmOf(trial.config)
    requires trial.config.jobs == Jobs(30, h) && trial.config.trial.value.priorCost == 0.15 && trial.config.budget == 0.60
    ensures EvenlyPlayed(second, 0.60, 0.60) && Plain(second.config, "second", 30)
    ensures Transition(OpenSecond, digest, trial, second) == Accepted && CarriesOver(digest, trial, second)
  {
    SecondIsPlain(digest, trial.config);
    second := EvenRun(SecondAfter(digest, trial.config), 30, h, 0.02, 0.60, 0.60);
    SecondAccepted(digest, trial, second);
    AcceptedCarriesOver(OpenSecond, digest, trial, second);
  }

  lemma ChainOfFour(digest: Config -> Hash, base: Run, first: Run, trial: Run, second: Run)
    requires Transition(OpenFirst, digest, base, first) == Accepted
    requires Transition(Review, digest, first, trial) == Accepted
    requires Transition(OpenSecond, digest, trial, second) == Accepted
    ensures Chain(digest, [base, first]) && Chain(digest, [base, first, trial, second])
  {
    assert Front([base, first, trial, second]) == [base, first, trial];
    assert Front([base, first, trial]) == [base, first];
    assert Follows(digest, first, trial);
    assert Follows(digest, trial, second);
  }

  lemma PaidFour(base: Run, first: Run, trial: Run, second: Run)
    ensures Paid([base, first, trial, second]) == Known(first) + Known(trial) + Known(second)
  {
    assert Front([base, first, trial, second]) == [base, first, trial];
    assert Front([base, first, trial]) == [base, first];
    assert Front([base, first]) == [base];
    assert Paid([base, first]) == Known(first);
    assert Paid([base, first, trial]) == Known(first) + Known(trial);
  }

  // ---------------------------------------------------------------------
  // Its records
  // ---------------------------------------------------------------------

  /** Configurations of differently named runs have different digests. */
  ghost predicate TellsRunsApart(digest: Config -> Hash) {
    forall c, d :: digest(c) == digest(d) ==> c.runId == d.runId
  }

  function ReceiptOf(digest: Config -> Hash, p: Run, n: Run): Receipt
    requires n.config.prior.Some?
  {
    Receipt(p.config.runId, digest(p.config), n.config.runId, digest(n.config),
            n.config.prior.value, n.config.carried, p.files.attempts, p.files.results)
  }

  function PairOf(digest: Config -> Hash, p: Run, n: Run): (Hash, Hash) {
    (digest(p.config), digest(n.config))
  }

  /** The volumes as the four transitions leave them. */
  function StoreOf(digest: Config -> Hash, probe: Run, base: Run, first: Run, trial: Run, second: Run): Store
    requires base.config.prior.Some? && first.config.prior.Some? && trial.config.prior.Some? && second.config.prior.Some?
  {
    Store(map["base" := base.config, "first" := first.config, "trial" := trial.config, "second" := second.config],
          map["base" := base, "first" := first, "trial" := trial, "second" := second],
          map[PairOf(digest, probe, base) := ReceiptOf(digest, probe, base),
              PairOf(digest, base, first) := ReceiptOf(digest, base, first),
              PairOf(digest, first, trial) := ReceiptOf(digest, first, trial),
              PairOf(digest, trial, second) := ReceiptOf(digest, trial, second)])
  }

  /** A bridged baseline and three steps behind it, under the names the store files them by. */
  ghost predicate InOrder(digest: Config -> Hash, probe: Run, base: Run, first: Run, trial: Run, second: Run) {
    && probe.config.runId == "probe" && base.config.runId == "base" && first.config.runId == "first"
    && trial.config.runId == "trial" && second.config.runId == "second"
    && CarriesOver(digest, probe, base) && CarriesOver(digest, base, first)
    && CarriesOver(digest, first, trial) && CarriesOver(digest, trial, second)
  }

  lemma PairsDiffer(digest: Config -> Hash, probe: Run, base: Run, first: Run, trial: Run, second: Run)
    requires TellsRunsApart(digest) && InOrder(digest, probe, base, first, trial, second)
    ensures digest(probe.config) != digest(base.config) && digest(probe.config) != digest(first.config)
    ensures digest(probe.config) != digest(trial.config) && Distinguished(digest, [base, first, trial, second])
  {
  }

  lemma StoreHolds(digest: Config -> Hash, probe: Run, base: Run, first: Run, trial: Run, second: Run)
    requires TellsRunsApart(digest) && InOrder(digest, probe, base, first, trial, second)
    ensures var store := StoreOf(digest, probe, base, first, trial, second);
            && ReceiptOk(store, digest, base.config)
            && Receipted(store, digest, base, first) && Receipted(store, digest, first, trial)
            && Receipted(store, digest, trial, second)
  {
    PairsDiffer(digest, probe, base, first, trial, second);
    var runs := [base, first, trial, second];
    assert digest(runs[0].config) != digest(runs[1].config) && digest(runs[0].config) != digest(runs[2].config);
    assert digest(runs[1].config) != digest(runs[2].config);
  }

  lemma StoreIsArchived(store: Store, digest: Config -> Hash, base: Run, first: Run, trial: Run, second: Run)
    requires Filed(store, base) && Filed(store, first) && Filed(store, trial) && Filed(store, second)
    requires ReceiptOk(store, digest, base.config) && Receipted(store, digest, base, first)
    requires Receipted(store, digest, first, trial) && Receipted(store, digest, trial, second)
    ensures Archived(store, digest, [base, first, trial, second])
  {
    var runs := [base, first, trial, second];
    forall i | 0 < i < |runs|
      ensures Receipted(store, digest, runs[i - 1], runs[i])
    {
      assert i == 1 || i == 2 || i == 3;
    }
  }

  lemma ArchiveFour(digest: Config -> Hash, probe: Run, base: Run, first: Run, trial: Run, second: Run)
    returns (store: Store)
    requires TellsRunsApart(digest) && InOrder(digest, probe, base, first, trial, second)
    ensures Archived(store, digest, [base, first, trial, second]) && Distinguished(digest, [base, first, trial, second])
  {
    store := StoreOf(digest, probe, base, first, trial, second);
    PairsDiffer(digest, probe, base, first, trial, second);
    StoreHolds(digest, probe, base, first, trial, second);
    StoreIsArchived(store, digest, base, first, trial, second);
  }

  /** The history of the first arm checks out, that of the second no longer does. */
  lemma HistoriesOf(store: Store, digest: Config -> Hash, base: Run, first: Run, trial: Run, second: Run)
    requires Chain(digest, [base, first]) && Chain(digest, [base, first, trial, second])
    requires Archived(store, digest, [base, first, trial, second]) && Distinguished(digest, [base, first, trial, second])
    ensures HistoryPasses(store, digest, first.config)
    ensures HistoryPasses(store, digest, second.config) <==> SecondArmsFollowUnpaid([base, first, trial, second])
  {
    var runs := [base, first, trial, second];
    FrontArchived(store, digest, runs);
    assert Front(runs) == [base, first, trial];
    FrontArchived(store, digest, Front(runs));
    assert Front(Front(runs)) == [base, first];
    assert Distinguished(digest, [base, first]) by {
      assert digest(runs[0].config) != digest(runs[1].config);
    }
    WalkRefusesResets(store, digest, [base, first]);
    WalkRefusesResets(store, digest, runs);
  }

  lemma PlayChain(digest: Config -> Hash, h: Hash) returns (probe: Run, base: Run, first: Run, trial: Run, second: Run)
    ensures Transition(OpenBaseline, digest, probe, base) == Accepted
    ensures Transition(OpenFirst, digest, base, first) == Accepted
    ensures Transition(Review, digest, first, trial) == Accepted
    ensures Transition(OpenSecond, digest, trial, second) == Accepted
    ensures Played(probe) && Played(base) && Played(first) && Played(trial) && Played(second)
    ensures Known(first) == 0.15 && Known(trial) == 0.15 && Known(second) == 0.60
    ensures InOrder(digest, probe, base, first, trial, second)
  {
    probe, base := PlayBase(digest, h);
    first := PlayFirst(digest, h, base);
    trial := PlayTrial(digest, h, first);
    second := PlaySecond(digest, h, trial);
  }

  /**
   Fifteen cents on the first arm, fifteen on a reviewed trial of the same arm and
   jobs, then a second arm that may and does spend sixty: ninety cents of a
   cap that may be at most seventy-five. Every transition from the bridge on is accepted,
   every run is played through the ledger, every record is archived as the transitions
   leave it, and the history check of the reviewed step passes.
   */
  lemma CapExceeded(digest: Config -> Hash, h: Hash)
    returns (store: Store, probe: Run, base: Run, first: Run, trial: Run, second: Run)
    requires TellsRunsApart(digest)
    ensures Transition(OpenBaseline, digest, probe, base) == Accepted && Chain(digest, [base, first, trial, second])
    ensures Played(probe) && Played(base) && Played(first) && Played(trial) && Played(second)
    ensures Archived(store, digest, [base, first, trial, second])
    ensures HistoryPasses(store, digest, first.config)
    ensures CAP_LIMIT < Paid([base, first, trial, second])
  {
    probe, base, first, trial, second := PlayChain(digest, h);
    ChainOfFour(digest, base, first, trial, second);
    store := ArchiveFour(digest, probe, base, first, trial, second);
    HistoriesOf(store, digest, base, first, trial, second);
    PaidFour(base, first, trial, second);
  }
}
