/**
 The shared budget of a comparison experiment, handed from one frozen run to the
 next. Each transition module accepts a following run only when its frozen
 configuration carries the prior run's charges and holds on; these are the rules
 they enforce, and what they make of a whole chain of runs.
 */
module BudgetChain {
  import opened Wrappers
  import opened QueueSums
  import opened QueueLedger
  import opened QueueSafety

  type Hash(==, !new)

  datatype Arm = NoneArm | LowArm

  datatype Trial = Trial(
    experiment: string, arm: Arm, cap: real, priorCost: real,
    baselineRun: string, baselineHash: Hash, baselineKnown: real, baselineUnknown: real)

  datatype PriorRun = PriorRun(runId: string, configHash: Hash, reported: real, unknown: real)

  datatype Stage = Probe | Remainder

  /** The earliest recoveries were frozen without a probe number and count as the first probe. */
  datatype Recovery = Recovery(stage: Stage, originRun: string, originHash: Hash, eligible: map<string, Hash>, number: Option<int>) {
    function ProbeNumber(): int {
      if number.None? then 1 else number.value
    }
  }

  datatype Mode = ProbeMode | FullMode

  /** `jobs` binds each source job of the manifest to the digest of its content. */
  datatype Config = Config(
    runId: string, mode: Mode, budget: real, carried: real, prior: Option<PriorRun>,
    trial: Option<Trial>, recovery: Option<Recovery>, unitTrial: bool, reviewed: bool,
    sample: bool, quality: bool, concurrency: int,
    key: string, recipe: string, model: string, route: string, timeout: int,
    jobs: map<string, Hash>)

  /** A frozen run with its queue and the files it has saved. */
  datatype Run = Run(config: Config, queue: Queue, files: Files)

  function SetupOf(r: Run): Setup
    requires 1 <= r.config.concurrency
  {
    Setup(r.queue, r.config.budget, r.config.carried, r.config.concurrency, r.config.quality || r.config.trial.Some?)
  }

  /** The run may be started: its configuration is in order and its queue is the frozen one. */
  ghost predicate Startable(r: Run) {
    && ConfigOk(r.config) && NamesPrior(r.config)
    && ValidSetup(SetupOf(r))
    && Ids(r.queue) == r.config.jobs.Keys
  }

  /** The files are what the ledger has written at some point of some history of this run. */
  ghost predicate Played(r: Run) {
    && Startable(r)
    && exists s: State :: Leads(SetupOf(r), Fresh, s) && s.working == r.files
  }

  function Known(r: Run): real {
    Sum(r.queue, CostMap(r.files))
  }

  /** Reservations of every attempt without a reported cost. */
  function Unknown(r: Run): real {
    Sum(r.queue, HoldMap(r.files, {}))
  }

  /** The reservations of the first `n` jobs. */
  function Reserved(q: Queue, n: nat): real
    requires n <= |q|
  {
    if n == 0 then 0.0 else Reserved(q, n - 1) + q[n - 1].reserve
  }

  // ---------------------------------------------------------------------
  // What a transition accepts
  // ---------------------------------------------------------------------

  /** No saved charge above its reservation, no attempt without an answer. */
  ghost predicate Reconciled(f: Files) {
    !AnyOverrun(f) && Unanswered(f) == {}
  }

  /** The saved records are those of queued jobs, none missing its attempt, and they are reconciled. */
  ghost predicate Readable(r: Run) {
    && DistinctIds(r.queue) && r.files.attempts.Keys <= Ids(r.queue) && r.files.results.Keys <= r.files.attempts.Keys
    && Reconciled(r.files)
  }

  ghost predicate AllAttempted(r: Run) {
    forall e :: e in r.queue ==> e.id in r.files.attempts
  }

  const CAP_LIMIT := 0.75

  /** The budget equation: the cap, less what the experiment has paid, plus the holds it started from. */
  ghost predicate Bounds(c: Config) {
    && c.trial.Some? && c.prior.Some? && c.mode == FullMode && !c.quality && c.concurrency <= 16
    && (|c.jobs| == 30 || c.recovery.Some? || c.unitTrial || c.reviewed)
    && 0.0 < c.trial.value.cap <= CAP_LIMIT
    && 0.0 <= c.trial.value.priorCost && 0.0 <= c.trial.value.baselineUnknown
    && c.budget == c.trial.value.cap - c.trial.value.priorCost + c.trial.value.baselineUnknown
    && 0.0 < c.budget
    && (c.recovery.Some? ==> RecoveryBounds(c))
    && (c.unitTrial ==> |c.jobs| == 3 && c.concurrency == 1 && c.recovery.None? && c.trial.value.arm == LowArm)
    && (c.reviewed ==> c.recovery.None? && !c.unitTrial && 1 <= |c.jobs| <= 30 && 1 <= c.concurrency <= 16)
  }

  const SAMPLE_CAP := 6.47

  /** The separate allowance of a sample: its own cap on top of everything it carries in. */
  ghost predicate SampleBounds(c: Config) {
    && c.reviewed && c.trial.None? && c.recovery.None? && !c.unitTrial && c.mode == FullMode
    && |c.jobs| == 150 && c.concurrency <= 4 && c.budget == SAMPLE_CAP + c.carried
  }

  const QUALITY_CAP := 5.0

  /** The quality trial on two hundred and ten jobs, which takes the scope over from a probe. */
  ghost predicate QualityBounds(c: Config) {
    |c.jobs| == 210 && c.prior.Some? && c.mode == FullMode && c.concurrency <= 16 && c.budget <= QUALITY_CAP
  }

  const RUN_CAP := 50.0

  /** What every run and every transition asks of a frozen configuration. */
  ghost predicate ConfigOk(c: Config) {
    && 30 <= c.timeout <= (if c.reviewed then 600 else 360)
    && 0.0 < c.budget <= RUN_CAP && 0.0 <= c.carried
    && 1 <= c.concurrency <= 128
    && (c.quality ==> QualityBounds(c))
    && (c.trial.Some? ==> Bounds(c))
    && (c.sample ==> SampleBounds(c))
    && (c.recovery.Some? || c.unitTrial || c.reviewed ==> c.trial.Some? || c.sample)
  }

  /** A run that has taken something over names the run it took it from. */
  ghost predicate NamesPrior(c: Config) {
    c.carried != 0.0 || c.quality || c.trial.Some? || c.sample ==> c.prior.Some?
  }

  const MAX_PROBES := 8

  ghost predicate RecoveryBounds(c: Config)
    requires c.recovery.Some?
  {
    var recovery := c.recovery.value;
    && recovery.number.Some? && 1 <= recovery.number.value <= MAX_PROBES
    && c.trial.Some? && c.trial.value.arm == LowArm && c.concurrency == 1
    && (recovery.stage == Probe ==> |c.jobs| == 1)
    && (recovery.stage == Remainder ==> 1 <= |c.jobs| <= 29)
  }

  /** The next configuration names the prior run's exact totals, takes over every hold, and can reserve all its jobs. */
  ghost predicate CarriesOver(digest: Config -> Hash, p: Run, n: Run) {
    && p.config.runId != n.config.runId
    && n.config.prior == Some(PriorRun(p.config.runId, digest(p.config), Known(p), Unknown(p)))
    && n.config.carried == p.config.carried + Unknown(p)
    && Reserved(n.queue, |n.queue|) + n.config.carried <= n.config.budget
    && n.config.key == p.config.key
    && Readable(p)
    && ConfigOk(n.config) && NamesPrior(p.config)
  }

  /** The bridge from a finished three-job probe to the quality trial on the full volume. */
  ghost predicate Bridged(digest: Config -> Hash, p: Run, n: Run) {
    && CarriesOver(digest, p, n) && AllAttempted(p)
    && p.config.mode == ProbeMode && n.config.quality && |p.config.jobs| == 3
    && n.config.recipe == p.config.recipe && n.config.model == p.config.model && n.config.route == p.config.route
    && SameJobs(n.config, p.config)
  }

  ghost predicate SameJobs(p: Config, n: Config) {
    forall id :: id in n.jobs ==> id in p.jobs && p.jobs[id] == n.jobs[id]
  }

  /** The matched transition, either arm. */
  ghost predicate Matched(digest: Config -> Hash, p: Run, n: Run) {
    && Bounds(n.config) && CarriesOver(digest, p, n) && AllAttempted(p)
    && p.config.mode == FullMode && n.config.route == p.config.route && n.config.model == p.config.model
    && SameJobs(p.config, n.config)
  }

  ghost predicate FirstArm(digest: Config -> Hash, p: Run, n: Run) {
    && Matched(digest, p, n)
    && p.config.quality && |p.config.jobs| == 210
    && var t := n.config.trial.value;
       && t.arm == NoneArm && t.priorCost == 0.0
       && t.baselineRun == p.config.runId && t.baselineHash == digest(p.config)
       && t.baselineKnown == Known(p) && t.baselineUnknown == n.config.carried
  }

  /** The second arm states the prior cost afresh: the first arm's own charges, not added to anything. */
  ghost predicate SecondArm(digest: Config -> Hash, p: Run, n: Run) {
    && Matched(digest, p, n)
    && p.config.trial.Some? && p.config.trial.value.arm == NoneArm
    && p.config.jobs.Keys == n.config.jobs.Keys && p.config.recipe == n.config.recipe
    && n.config.trial.value == p.config.trial.value.(arm := LowArm, priorCost := Known(p))
  }

  /** The other transitions add the prior run's charges to the prior cost and change nothing else of the experiment. */
  ghost predicate AddsPriorCost(digest: Config -> Hash, p: Run, n: Run) {
    && Bounds(n.config) && CarriesOver(digest, p, n)
    && p.config.trial.Some?
    && n.config.trial.value == p.config.trial.value.(priorCost := p.config.trial.value.priorCost + Known(p))
  }

  ghost predicate RateLimitedOrUnstarted(p: Run, id: string) {
    id in p.files.attempts ==>
      id in p.files.results && p.files.results[id].status == Failed && p.files.results[id].error == ProviderError
  }

  /** The jobs a recovery may still read. */
  ghost predicate RecoveryEntry(digest: Config -> Hash, p: Run, next: Recovery) {
    match p.config.recovery
    case None =>
      && next.stage == Probe && next.number == Some(1)
      && p.config.trial.Some? && p.config.trial.value.arm == LowArm && |p.config.jobs| == 30
      && next.originRun == p.config.runId && next.originHash == digest(p.config)
      && p.files.progress.Some? && p.files.progress.value.stop == Some(ProviderBurst)
      && (forall id :: id in p.config.jobs ==> RateLimitedOrUnstarted(p, id))
      && p.files.attempts != map[]
      && next.eligible == p.config.jobs
    case Some(previous) =>
      && previous.stage == Probe && |p.config.jobs| == 1 && AllAttempted(p)
      && next.originRun == previous.originRun && next.originHash == previous.originHash
      && next.eligible == previous.eligible
      && forall id :: id in p.files.results ==>
           if next.stage == Probe then
             next.number == Some(previous.ProbeNumber() + 1) && p.files.results[id].status == Failed
             && p.files.results[id].error == ProviderError
           else
             next.number == Some(previous.ProbeNumber()) && p.files.results[id].status != Failed && p.files.results[id].cost.Some?
  }

  ghost predicate Recovered(digest: Config -> Hash, p: Run, n: Run) {
    && AddsPriorCost(digest, p, n) && n.config.recovery.Some?
    && p.config.mode == FullMode && n.config.model == p.config.model && n.config.recipe == p.config.recipe
    && RecoveryEntry(digest, p, n.config.recovery.value)
    && var next := n.config.recovery.value;
       && (next.stage == Probe ==> n.config.route != p.config.route)
       && (next.stage == Remainder ==> n.config.route == p.config.route && n.config.timeout == p.config.timeout)
       && (forall id :: id in n.config.jobs ==> id in next.eligible && next.eligible[id] == n.config.jobs[id])
       && (next.stage == Remainder ==> n.config.jobs.Keys == next.eligible.Keys - p.config.jobs.Keys)
  }

  ghost predicate UnitTried(digest: Config -> Hash, p: Run, n: Run) {
    && AddsPriorCost(digest, p, n) && n.config.unitTrial
    && p.config.recovery.Some? && p.config.recovery.value.stage == Probe && !p.config.unitTrial
    && p.config.mode == FullMode && n.config.model == p.config.model && n.config.route == p.config.route
    && n.config.timeout == p.config.timeout && n.config.recipe != p.config.recipe
    && |p.config.jobs| == 1 && AllAttempted(p)
    && (forall id :: id in p.files.results ==> p.files.results[id].cost.Some? && p.files.results[id].error != ProviderError)
    && SameJobs(p.config.(jobs := p.config.recovery.value.eligible), n.config)
  }

  ghost predicate Reviewed(digest: Config -> Hash, p: Run, n: Run) {
    && AddsPriorCost(digest, p, n) && n.config.reviewed && AllAttempted(p)
    && p.files.progress.Some? && p.files.progress.value.inFlight == 0 && p.files.progress.value.notStarted == 0
  }

  /** The separate sample allowance closes the experiment and carries its holds on. */
  ghost predicate Sampled(digest: Config -> Hash, p: Run, n: Run) {
    && CarriesOver(digest, p, n) && n.config.sample && AllAttempted(p)
    && n.config.model == p.config.model && n.config.route == p.config.route
  }

  ghost predicate Follows(digest: Config -> Hash, p: Run, n: Run) {
    exists kind :: kind !in {OpenBaseline, OpenFirst} && Transition(kind, digest, p, n) == Accepted
  }

  datatype Kind = OpenBaseline | OpenFirst | OpenSecond | Recover | TryUnits | Review

  datatype Verdict = Accepted | Rejected

  ghost function Transition(kind: Kind, digest: Config -> Hash, p: Run, n: Run): Verdict {
    var ok := match kind
      case OpenBaseline => Bridged(digest, p, n)
      case OpenFirst => FirstArm(digest, p, n)
      case OpenSecond => SecondArm(digest, p, n)
      case Recover => Recovered(digest, p, n)
      case TryUnits => UnitTried(digest, p, n)
      case Review => Reviewed(digest, p, n);
    if ok then Accepted else Rejected
  }

  function Front(runs: seq<Run>): seq<Run>
    requires runs != []
  {
    runs[..|runs| - 1]
  }

  function Last(runs: seq<Run>): Run
    requires runs != []
  {
    runs[|runs| - 1]
  }

  /** `runs[0]` is the settled baseline, `runs[1]` the first arm, each later run accepted after the one before. */
  ghost predicate Chain(digest: Config -> Hash, runs: seq<Run>)
    decreases |runs|
  {
    && |runs| >= 2
    && if |runs| == 2 then Transition(OpenFirst, digest, runs[0], runs[1]) == Accepted
       else Chain(digest, Front(runs)) && Follows(digest, Last(Front(runs)), Last(runs))
  }

  // ---------------------------------------------------------------------
  // One run
  // ---------------------------------------------------------------------

  /** The ledger bound of one run, read off its saved files. */
  lemma RunStaysWithin(r: Run)
    requires Played(r) && !AnyOverrun(r.files)
    ensures r.config.carried + Known(r) + Unknown(r) <= Max(r.config.budget, r.config.carried)
    ensures 0.0 <= Known(r) && 0.0 <= Unknown(r)
  {
    var c := SetupOf(r);
    var s: State :| Leads(c, Fresh, s) && s.working == r.files;
    ReachedKeeps(c, s);
    BoundOf(c, s);
    ExposureIsLedger(c, s);
    LedgerSplits(c.queue, r.files, {});
    assert FlightMap(r.files, {}) == map[];
    SumZero(c.queue);
    SumMonotone(c.queue, OverrunMap(r.files), map[]);
    NonNegative(c, s);
    SumMonotone(c.queue, map[], CostMap(r.files));
    SumMonotone(c.queue, map[], HoldMap(r.files, {}));
  }

  lemma {:induction false} ReservedNonNegative(q: Queue, n: nat)
    requires n <= |q| && forall e :: e in q ==> 0.0 <= e.reserve
    ensures 0.0 <= Reserved(q, n)
  {
    if n != 0 {
      ReservedNonNegative(q, n - 1);
      assert q[n - 1] in q;
    }
  }

  /** What an accepted run may add: its charges and holds fit in its budget beyond what it carried in. */
  lemma RunFitsHeadroom(digest: Config -> Hash, p: Run, n: Run)
    requires CarriesOver(digest, p, n) && Played(n) && !AnyOverrun(n.files)
    ensures Known(n) + Unknown(n) <= n.config.budget - n.config.carried
  {
    RunStaysWithin(n);
    ReservedNonNegative(n.queue, |n.queue|);
  }

  // ---------------------------------------------------------------------
  // Whole chains
  // ---------------------------------------------------------------------

  /** Known charges of every run after the baseline. */
  ghost function Paid(runs: seq<Run>): real
    decreases |runs|
  {
    if |runs| <= 1 then 0.0 else Paid(Front(runs)) + Known(Last(runs))
  }

  /** Unresolved holds of every run after the baseline. */
  ghost function Held(runs: seq<Run>): real
    decreases |runs|
  {
    if |runs| <= 1 then 0.0 else Held(Front(runs)) + Unknown(Last(runs))
  }

  /** The last run opens the second arm. */
  ghost predicate OpensSecondArm(runs: seq<Run>)
    requires |runs| >= 2
  {
    var before, now := Last(Front(runs)).config.trial, Last(runs).config.trial;
    before.Some? && now.Some? && before.value.arm != now.value.arm
  }

  /** What the last run's prior had been told was paid before it. */
  ghost function PaidBeforePrior(runs: seq<Run>): real
    requires |runs| >= 2
  {
    var trial := Last(Front(runs)).config.trial;
    if trial.Some? then trial.value.priorCost else 0.0
  }

  /** The condition the matched transition does not check: a second arm follows an arm that nothing was paid before. */
  ghost predicate SecondArmsFollowUnpaid(runs: seq<Run>)
    decreases |runs|
  {
    |runs| <= 2 || (SecondArmsFollowUnpaid(Front(runs)) && (OpensSecondArm(runs) ==> PaidBeforePrior(runs) == 0.0))
  }

  /** What second arms along the chain have dropped from the prior cost. */
  ghost function Dropped(runs: seq<Run>): real
    decreases |runs|
  {
    if |runs| <= 2 then 0.0 else Dropped(Front(runs)) + (if OpensSecondArm(runs) then PaidBeforePrior(runs) else 0.0)
  }

  /** The budget fields of any accepted run, against what the chain before it really paid, still holds, and dropped. */
  ghost predicate AccountedBut(runs: seq<Run>, dropped: real)
    requires |runs| >= 2
  {
    var c := Last(runs).config;
    && c.trial.Some? && runs[1].config.trial.Some?
    && c.trial.value.cap == runs[1].config.trial.value.cap
    && c.trial.value.baselineUnknown == runs[1].config.trial.value.baselineUnknown
    && c.trial.value.priorCost == Paid(Front(runs)) - dropped
    && c.carried == c.trial.value.baselineUnknown + Held(Front(runs))
    && c.budget == c.trial.value.cap - c.trial.value.priorCost + c.trial.value.baselineUnknown
    && 0.0 <= c.trial.value.priorCost
  }

  /** The budget fields of the last run say what the chain before it really paid and still holds. */
  ghost predicate Accounted(runs: seq<Run>)
    requires |runs| >= 2
  {
    AccountedBut(runs, 0.0)
  }

  /**
   Every step but a second arm keeps the account; a second arm keeps it exactly when
   nothing was paid before its prior run.
   */
  lemma {:induction false} StepAccounted(digest: Config -> Hash, runs: seq<Run>)
    requires Chain(digest, runs) && |runs| >= 3 && Accounted(Front(runs))
    ensures !OpensSecondArm(runs) ==> Accounted(runs)
    ensures OpensSecondArm(runs) ==> (Accounted(runs) <==> PaidBeforePrior(runs) == 0.0)
  {
    assert runs[1] == Front(runs)[1];
  }

  lemma {:induction false} ChainAccount(digest: Config -> Hash, runs: seq<Run>)
    requires Chain(digest, runs)
    ensures AccountedBut(runs, Dropped(runs))
    decreases |runs|
  {
    if |runs| > 2 {
      ChainAccount(digest, Front(runs));
      assert runs[1] == Front(runs)[1];
    }
  }

  lemma {:induction false} DropsAddUp(digest: Config -> Hash, runs: seq<Run>)
    requires Chain(digest, runs)
    ensures 0.0 <= Dropped(runs) && (Dropped(runs) == 0.0 <==> SecondArmsFollowUnpaid(runs))
    decreases |runs|
  {
    if |runs| > 2 {
      DropsAddUp(digest, Front(runs));
      ChainAccount(digest, Front(runs));
    }
  }

  /**
   Over whole chains the account is right if and only if every second arm follows an arm
   that nothing was paid before.
   */
  lemma {:induction false} ChainAccounted(digest: Config -> Hash, runs: seq<Run>)
    requires Chain(digest, runs)
    ensures Accounted(runs) <==> SecondArmsFollowUnpaid(runs)
    ensures 0.0 <= Dropped(runs) && (Dropped(runs) == 0.0 <==> SecondArmsFollowUnpaid(runs))
  {
    ChainAccount(digest, runs);
    DropsAddUp(digest, runs);
  }

  lemma {:induction false} AcceptedCarries(digest: Config -> Hash, runs: seq<Run>)
    requires Chain(digest, runs)
    ensures CarriesOver(digest, Last(Front(runs)), Last(runs))
  {
  }

  /** What any accepted run may spend: what remains of the cap, and on top of it exactly what second arms have dropped. */
  lemma {:induction false} HeadroomAfter(digest: Config -> Hash, runs: seq<Run>)
    requires Chain(digest, runs)
    ensures runs[1].config.trial.Some?
    ensures var remaining := runs[1].config.trial.value.cap - Paid(Front(runs)) - Held(Front(runs));
            var headroom := Last(runs).config.budget - Last(runs).config.carried;
            headroom == remaining + Dropped(runs)
  {
    ChainAccount(digest, runs);
  }

  /**
   The shared cap. Over any accepted chain all known charges and unresolved holds
   since the baseline, those of the run still in progress included, stay within the
   one incremental cap and what second arms have dropped; so they stay within the cap
   if every second arm follows an arm that nothing was paid before.
   */
  lemma {:induction false} SharedCap(digest: Config -> Hash, runs: seq<Run>)
    requires Chain(digest, runs) && Played(Last(runs)) && !AnyOverrun(Last(runs).files)
    ensures runs[1].config.trial.Some?
    ensures Paid(runs) + Held(runs) <= runs[1].config.trial.value.cap + Dropped(runs)
    ensures SecondArmsFollowUnpaid(runs) ==> Paid(runs) + Held(runs) <= runs[1].config.trial.value.cap
  {
    HeadroomAfter(digest, runs);
    DropsAddUp(digest, runs);
    AcceptedCarries(digest, runs);
    RunFitsHeadroom(digest, Last(Front(runs)), Last(runs));
  }

  /** The sample allowance: its own charges and holds stay within its cap, on top of every hold it carried in. */
  lemma SampleCap(digest: Config -> Hash, p: Run, n: Run)
    requires Sampled(digest, p, n) && Played(n) && !AnyOverrun(n.files)
    ensures Known(n) + Unknown(n) <= SAMPLE_CAP
    ensures n.config.carried == p.config.carried + Unknown(p)
  {
    RunFitsHeadroom(digest, p, n);
  }
}
