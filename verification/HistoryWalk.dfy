/**
 Walking a spending history backwards over the saved files: each step reads the
 prior run's records again and compares them with what the run after it was
 allowed to assume.
 */
module HistoryWalk {
  import opened Wrappers
  import opened QueueSums
  import opened QueueLedger
  import opened BudgetChain

  /** The receipt archived when one scope replaced another; `evidence` binds the prior run's records. */
  datatype Receipt = Receipt(
    previousRun: string, previousHash: Hash, nextRun: string, nextHash: Hash,
    priorCost: PriorRun, carried: real, attempts: map<string, real>, results: map<string, Answer>)

  /** Frozen configurations by run name, run directories by run name, receipts by their pair of digests. */
  datatype Store = Store(inputs: map<string, Config>, runs: map<string, Run>, archive: map<(Hash, Hash), Receipt>)

  datatype WalkError =
    | RepeatsOrTooDeep
    | ReceiptMissingOrDiffers
    | ParentDiffers
    | RecordsInconsistent
    | DroppedCharges
    | BaselineDiffers
    | ExperimentReset
    | DroppedSpending
    | WrongOrigin
    | WrongProbeOrder

  // ---------------------------------------------------------------------
  // Reading one run's records again
  // ---------------------------------------------------------------------

  /**
   Known charges and unknown holds of one run; absent attempts are allowed, interrupted
   ones and damaged records are not.
   */
  method ReadState(r: Run) returns (totals: Result<(real, real), WalkError>)
    ensures totals.Success? <==> Readable(r)
    ensures totals.Success? ==> totals.value == (Known(r), Unknown(r))
  {
    var known, unknown := 0.0, 0.0;
    var seen: set<string> := {};
    var i := 0;
    while i < |r.queue|
      invariant 0 <= i <= |r.queue|
      invariant known == SumTo(r.queue, CostMap(r.files), i) && unknown == SumTo(r.queue, HoldMap(r.files, {}), i)
      invariant ReadTo(r, i) && forall id :: id in seen <==> NamedBefore(r.queue, i, id)
    {
      var id := r.queue[i].id;
      if id in seen || (id in r.files.results) != (id in r.files.attempts) {
        NotRead(r, i + 1);
        return Failure(RecordsInconsistent);
      }
      if id in r.files.attempts {
        match r.files.results[id].cost {
          case None => unknown := unknown + r.files.attempts[id];
          case Some(cost) =>
            if cost > r.files.attempts[id] {
              NotRead(r, i + 1);
              return Failure(RecordsInconsistent);
            }
            known := known + cost;
        }
      }
      seen := seen + {id};
      i := i + 1;
    }
    SeenIsAll(r.queue, seen);
    if !(r.files.attempts.Keys <= seen && r.files.results.Keys <= seen) {
      return Failure(RecordsInconsistent);
    }
    AllRead(r);
    return Success((known, unknown));
  }

  /** An attempt and its answer, no charge above the reservation; or neither. */
  predicate EntryRead(f: Files, id: string) {
    && (id in f.results <==> id in f.attempts)
    && (id in f.attempts && HasCost(f, id) ==> f.results[id].cost.value <= f.attempts[id])
  }

  ghost predicate ReadTo(r: Run, n: nat)
    requires n <= |r.queue|
  {
    n == 0 || (ReadTo(r, n - 1) && !NamedBefore(r.queue, n - 1, r.queue[n - 1].id) && EntryRead(r.files, r.queue[n - 1].id))
  }

  lemma {:induction false} ReadableIsRead(r: Run, n: nat)
    requires Readable(r) && n <= |r.queue|
    ensures ReadTo(r, n)
  {
    if n != 0 {
      ReadableIsRead(r, n - 1);
      var id := r.queue[n - 1].id;
      assert id !in Unanswered(r.files);
    }
  }

  lemma {:induction false} NotRead(r: Run, n: nat)
    requires n <= |r.queue| && !ReadTo(r, n)
    ensures !Readable(r)
  {
    if Readable(r) {
      ReadableIsRead(r, n);
    }
  }

  lemma {:induction false} ReadAt(r: Run, n: nat, j: nat)
    requires j < n <= |r.queue| && ReadTo(r, n)
    ensures EntryRead(r.files, r.queue[j].id) && !NamedBefore(r.queue, j, r.queue[j].id)
  {
    if j < n - 1 {
      ReadAt(r, n - 1, j);
    }
  }

  lemma {:induction false} AllRead(r: Run)
    requires ReadTo(r, |r.queue|) && r.files.attempts.Keys <= Ids(r.queue) && r.files.results.Keys <= Ids(r.queue)
    ensures Readable(r)
  {
    forall e | e in r.queue
      ensures EntryRead(r.files, e.id)
    {
      var j :| 0 <= j < |r.queue| && r.queue[j] == e;
      ReadAt(r, |r.queue|, j);
    }
    forall i, j | 0 <= i < j < |r.queue|
      ensures r.queue[i].id != r.queue[j].id
    {
      ReadAt(r, |r.queue|, j);
    }
    forall id | id in Ids(r.queue)
      ensures EntryRead(r.files, id)
    {
      var e :| e in r.queue && e.id == id;
    }
  }

  // ---------------------------------------------------------------------
  // One step back
  // ---------------------------------------------------------------------

  /** A carried hold must have its exact receipt. */
  predicate ReceiptOk(store: Store, digest: Config -> Hash, c: Config) {
    (c.carried != 0.0 || c.quality || c.trial.Some? || c.sample) ==>
      && c.prior.Some?
      && (c.prior.value.configHash, digest(c)) in store.archive
      && var receipt := store.archive[(c.prior.value.configHash, digest(c))];
         && receipt.nextRun == c.runId && receipt.nextHash == digest(c)
         && receipt.priorCost == c.prior.value && receipt.carried == c.carried
  }

  /** The run named as prior, if its frozen configuration is the one recorded. */
  function ParentOf(store: Store, digest: Config -> Hash, c: Config): Option<Config> {
    if c.prior.None? || c.prior.value.runId !in store.inputs then None
    else
      var parent := store.inputs[c.prior.value.runId];
      if && digest(parent) == c.prior.value.configHash && parent.runId == c.prior.value.runId
         && parent.runId in store.runs && store.runs[parent.runId].config == parent
      then Some(parent) else None
  }

  /** The run's files are the evidence its successor's receipt was archived with. */
  predicate EvidenceKept(store: Store, digest: Config -> Hash, c: Config, parent: Config)
    requires parent.runId in store.runs
  {
    var pair := (digest(parent), digest(c));
    && pair in store.archive
    && store.archive[pair].previousRun == parent.runId && store.archive[pair].previousHash == digest(parent)
    && store.archive[pair].attempts == store.runs[parent.runId].files.attempts
    && store.archive[pair].results == store.runs[parent.runId].files.results
  }

  /** The successor was told exactly the totals its prior run's records add up to. */
  predicate TotalsKept(store: Store, digest: Config -> Hash, c: Config, parent: Config, known: real, unknown: real) {
    && c.prior == Some(PriorRun(parent.runId, digest(parent), known, unknown))
    && c.carried == parent.carried + unknown
    && ReceiptOk(store, digest, parent)
  }

  predicate SameExperiment(t: Trial, fixed: Trial) {
    && t.experiment == fixed.experiment && t.cap == fixed.cap
    && t.baselineRun == fixed.baselineRun && t.baselineHash == fixed.baselineHash
    && t.baselineKnown == fixed.baselineKnown && t.baselineUnknown == fixed.baselineUnknown
  }

  /** Everything one backward step checks before it looks at where it has arrived. */
  ghost predicate StepOk(store: Store, digest: Config -> Hash, key: string, c: Config) {
    && ReceiptOk(store, digest, c)
    && ParentOf(store, digest, c).Some?
    && var parent := ParentOf(store, digest, c).value;
       && parent.key == key
       && Readable(store.runs[parent.runId])
       && EvidenceKept(store, digest, c, parent)
       && TotalsKept(store, digest, c, parent, Known(store.runs[parent.runId]), Unknown(store.runs[parent.runId]))
  }

  predicate BaselineOk(digest: Config -> Hash, fixed: Trial, c: Config, parent: Config, known: real) {
    && digest(parent) == fixed.baselineHash && known == fixed.baselineKnown
    && c.carried == fixed.baselineUnknown
    && c.trial.Some? && c.trial.value.priorCost == 0.0
  }

  predicate TrialOk(fixed: Trial, c: Config, parent: Config, known: real) {
    && c.trial.Some? && parent.trial.Some?
    && SameExperiment(c.trial.value, fixed) && SameExperiment(parent.trial.value, fixed)
    && c.trial.value.priorCost == parent.trial.value.priorCost + known
  }

  const MAX_DEPTH := 64

  /** The prior runs of `c`, nearest first and the baseline last, if every step back to it checks out. */
  ghost function Ancestry(store: Store, digest: Config -> Hash, fixed: Trial, key: string, c: Config, seen: set<Hash>)
    : Option<seq<Config>>
    decreases MAX_DEPTH - |seen|
  {
    if digest(c) in seen || |seen| >= MAX_DEPTH || !StepOk(store, digest, key, c) then None
    else
      var parent := ParentOf(store, digest, c).value;
      var known := Known(store.runs[parent.runId]);
      if parent.runId == fixed.baselineRun then
        if BaselineOk(digest, fixed, c, parent, known) then Some([parent]) else None
      else if !TrialOk(fixed, c, parent, known) then None
      else
        match Ancestry(store, digest, fixed, key, parent, seen + {digest(c)})
        case None => None
        case Some(rest) => Some([parent] + rest)
  }

  /** The walk itself: a loop over `current` and the digests already seen. */
  method VerifyHistory(store: Store, digest: Config -> Hash, latest: Config) returns (r: Result<(), WalkError>)
    ensures latest.trial.None? ==> r.Failure?
    ensures latest.trial.Some? ==>
      (r.Success? <==> Ancestry(store, digest, latest.trial.value, latest.key, latest, {}).Some?)
  {
    if latest.trial.None? {
      return Failure(ExperimentReset);
    }
    var fixed := latest.trial.value;
    var current := latest;
    var seen: set<Hash> := {};
    while true
      invariant Ancestry(store, digest, fixed, latest.key, latest, {}).Some?
           <==> Ancestry(store, digest, fixed, latest.key, current, seen).Some?
      invariant |seen| <= MAX_DEPTH
      decreases MAX_DEPTH - |seen|
    {
      var h := digest(current);
      if h in seen || |seen| >= MAX_DEPTH {
        return Failure(RepeatsOrTooDeep);
      }
      if !ReceiptOk(store, digest, current) {
        return Failure(ReceiptMissingOrDiffers);
      }
      var found := ParentOf(store, digest, current);
      if found.None? || found.value.key != latest.key {
        return Failure(ParentDiffers);
      }
      var parent := found.value;
      var state := ReadState(store.runs[parent.runId]);
      if state.Failure? {
        return Failure(state.error);
      }
      var (known, unknown) := state.value;
      if !EvidenceKept(store, digest, current, parent)
         || !TotalsKept(store, digest, current, parent, known, unknown) {
        return Failure(DroppedCharges);
      }
      assert StepOk(store, digest, latest.key, current);
      if parent.runId == fixed.baselineRun {
        if !BaselineOk(digest, fixed, current, parent, known) {
          return Failure(BaselineDiffers);
        }
        return Success(());
      }
      if !TrialOk(fixed, current, parent, known) {
        return Failure(DroppedSpending);
      }
      seen := seen + {h};
      current := parent;
    }
  }

  // ---------------------------------------------------------------------
  // What an accepted walk proves
  // ---------------------------------------------------------------------

  /** Known charges of every listed run but the last, the baseline. */
  ghost function PaidSince(store: Store, parents: seq<Config>): real
    requires forall p :: p in parents ==> p.runId in store.runs
  {
    if |parents| <= 1 then 0.0 else Known(store.runs[parents[0].runId]) + PaidSince(store, parents[1..])
  }

  /** Unknown holds of every listed run but the last. */
  ghost function HeldSince(store: Store, parents: seq<Config>): real
    requires forall p :: p in parents ==> p.runId in store.runs
  {
    if |parents| <= 1 then 0.0 else Unknown(store.runs[parents[0].runId]) + HeldSince(store, parents[1..])
  }

  ghost predicate Stored(store: Store, parents: seq<Config>) {
    forall p :: p in parents ==>
      p.runId in store.inputs && store.inputs[p.runId] == p && p.runId in store.runs && store.runs[p.runId].config == p
  }

  /** No run is listed twice. */
  ghost predicate EachOnce(parents: seq<Config>) {
    forall i, j :: 0 <= i < j < |parents| ==> parents[i].runId != parents[j].runId
  }

  /** The walk ends in time and at the baseline, and meets no digest twice. */
  lemma {:induction false} WalkEnds(store: Store, digest: Config -> Hash, fixed: Trial, key: string, c: Config, seen: set<Hash>)
    requires Ancestry(store, digest, fixed, key, c, seen).Some?
    ensures var parents := Ancestry(store, digest, fixed, key, c, seen).value;
            && 1 <= |parents| <= MAX_DEPTH - |seen| && Stored(store, parents)
            && parents[|parents| - 1].runId == fixed.baselineRun
            && digest(parents[|parents| - 1]) == fixed.baselineHash
            && (forall i :: 0 <= i < |parents| - 1 ==>
                  parents[i].runId != fixed.baselineRun && digest(parents[i]) !in seen + {digest(c)})
    decreases MAX_DEPTH - |seen|
  {
    var parent := ParentOf(store, digest, c).value;
    if parent.runId != fixed.baselineRun {
      WalkEnds(store, digest, fixed, key, parent, seen + {digest(c)});
    }
  }

  /** What one accepted step hands on: either the baseline is reached, or the walk goes on from the parent. */
  lemma {:induction false} AncestryStep(store: Store, digest: Config -> Hash, fixed: Trial, key: string, c: Config, seen: set<Hash>)
    requires Ancestry(store, digest, fixed, key, c, seen).Some?
    ensures ParentOf(store, digest, c).Some?
    ensures var parent := ParentOf(store, digest, c).value;
            && Stored(store, [parent]) && c.trial.Some?
            && c.carried == parent.carried + Unknown(store.runs[parent.runId])
            && if parent.runId == fixed.baselineRun then
                 && Ancestry(store, digest, fixed, key, c, seen).value == [parent]
                 && c.trial.value.priorCost == 0.0 && c.carried == fixed.baselineUnknown
                 && Known(store.runs[parent.runId]) == fixed.baselineKnown
               else
                 && Ancestry(store, digest, fixed, key, parent, seen + {digest(c)}).Some?
                 && Ancestry(store, digest, fixed, key, c, seen).value
                      == [parent] + Ancestry(store, digest, fixed, key, parent, seen + {digest(c)}).value
                 && parent.trial.Some?
                 && c.trial.value.priorCost == parent.trial.value.priorCost + Known(store.runs[parent.runId])
  {
  }

  /** No run is counted twice on the way. */
  lemma {:induction false} WalkVisitsOnce(store: Store, digest: Config -> Hash, fixed: Trial, key: string, c: Config, seen: set<Hash>)
    requires Ancestry(store, digest, fixed, key, c, seen).Some?
    ensures EachOnce(Ancestry(store, digest, fixed, key, c, seen).value)
    decreases MAX_DEPTH - |seen|
  {
    var parent := ParentOf(store, digest, c).value;
    if parent.runId != fixed.baselineRun {
      var seen' := seen + {digest(c)};
      WalkVisitsOnce(store, digest, fixed, key, parent, seen');
      WalkEnds(store, digest, fixed, key, parent, seen');
      NotAgain(store, digest, parent, Ancestry(store, digest, fixed, key, parent, seen').value);
    }
  }

  lemma NotAgain(store: Store, digest: Config -> Hash, parent: Config, rest: seq<Config>)
    requires Stored(store, [parent]) && Stored(store, rest)
    requires forall i :: 0 <= i < |rest| - 1 ==> digest(rest[i]) != digest(parent)
    requires rest != [] ==> rest[|rest| - 1].runId != parent.runId
    requires EachOnce(rest)
    ensures EachOnce([parent] + rest)
  {
    forall j | 0 <= j < |rest|
      ensures rest[j].runId != parent.runId
    {
      assert rest[j] in rest && parent in [parent];
    }
  }

  lemma {:induction false} SumsGrow(store: Store, parent: Config, rest: seq<Config>)
    requires Stored(store, [parent] + rest) && rest != []
    ensures Stored(store, rest)
    ensures PaidSince(store, [parent] + rest) == Known(store.runs[parent.runId]) + PaidSince(store, rest)
    ensures HeldSince(store, [parent] + rest) == Unknown(store.runs[parent.runId]) + HeldSince(store, rest)
  {
    var parents := [parent] + rest;
    assert parents[1..] == rest && forall p :: p in rest ==> p in parents;
  }

  /**
   All that an accepted step from `c` back to `parent` rests on, read off the frozen files,
   the records and the archive.
   */
  ghost predicate Evidenced(store: Store, digest: Config -> Hash, key: string, c: Config, parent: Config) {
    && parent.runId in store.inputs && store.inputs[parent.runId] == parent
    && parent.runId in store.runs && store.runs[parent.runId].config == parent && parent.key == key
    && var run := store.runs[parent.runId];
       && c.prior == Some(PriorRun(parent.runId, digest(parent), Known(run), Unknown(run)))
       && c.carried == parent.carried + Unknown(run)
       && DistinctIds(run.queue) && run.files.attempts.Keys <= Ids(run.queue)
       && run.files.attempts.Keys == run.files.results.Keys
       && (forall id :: id in run.files.attempts && run.files.results[id].cost.Some? ==>
             run.files.results[id].cost.value <= run.files.attempts[id])
       && (digest(parent), digest(c)) in store.archive
       && var receipt := store.archive[(digest(parent), digest(c))];
          && receipt.previousRun == parent.runId && receipt.previousHash == digest(parent)
          && receipt.nextRun == c.runId && receipt.nextHash == digest(c)
          && receipt.priorCost == c.prior.value && receipt.carried == c.carried
          && receipt.attempts == run.files.attempts && receipt.results == run.files.results
  }

  lemma ReconciledPlainly(r: Run)
    ensures Readable(r) <==>
      && DistinctIds(r.queue) && r.files.attempts.Keys <= Ids(r.queue) && r.files.attempts.Keys == r.files.results.Keys
      && forall id :: id in r.files.attempts && r.files.results[id].cost.Some? ==>
           r.files.results[id].cost.value <= r.files.attempts[id]
  {
    if r.files.results.Keys <= r.files.attempts.Keys && Unanswered(r.files) == {} {
      forall id | id in r.files.attempts
        ensures id in r.files.results
      {
        assert id !in Unanswered(r.files);
      }
    }
    if r.files.attempts.Keys == r.files.results.Keys && !AnyOverrun(r.files) {
      forall id | id in r.files.attempts && r.files.results[id].cost.Some?
        ensures r.files.results[id].cost.value <= r.files.attempts[id]
      {
        assert HasCost(r.files, id);
      }
    }
  }

  /** A step is accepted exactly on that evidence, together with the parent's own receipt. */
  lemma StepIsEvidenced(store: Store, digest: Config -> Hash, key: string, c: Config, parent: Config)
    requires c.trial.Some?
    ensures StepOk(store, digest, key, c) && ParentOf(store, digest, c) == Some(parent)
       <==> Evidenced(store, digest, key, c, parent) && ReceiptOk(store, digest, parent)
  {
    if parent.runId in store.runs {
      ReconciledPlainly(store.runs[parent.runId]);
    }
  }

  /** Every step of an accepted walk is evidenced, and every run before the baseline keeps the experiment. */
  lemma {:induction false} WalkIsEvidenced(store: Store, digest: Config -> Hash, fixed: Trial, key: string, c: Config,
                                           seen: set<Hash>, i: nat)
    requires Ancestry(store, digest, fixed, key, c, seen).Some? && i < |Ancestry(store, digest, fixed, key, c, seen).value|
    ensures var parents := Ancestry(store, digest, fixed, key, c, seen).value;
            && Evidenced(store, digest, key, if i == 0 then c else parents[i - 1], parents[i])
            && (i + 1 < |parents| ==>
                  && parents[i].trial.Some?
                  && parents[i].trial.value
                     == fixed.(arm := parents[i].trial.value.arm, priorCost := parents[i].trial.value.priorCost))
    decreases i
  {
    AncestryStep(store, digest, fixed, key, c, seen);
    var parent := ParentOf(store, digest, c).value;
    if i == 0 {
      StepIsEvidenced(store, digest, key, c, parent);
    } else {
      WalkIsEvidenced(store, digest, fixed, key, parent, seen + {digest(c)}, i - 1);
    }
  }

  /** What `c` was told of the listed runs is exactly what they paid and hold. */
  ghost predicate ToldExactly(store: Store, fixed: Trial, c: Config, parents: seq<Config>) {
    && Stored(store, parents) && parents != []
    && c.trial.Some? && c.trial.value.priorCost == PaidSince(store, parents)
    && c.carried == fixed.baselineUnknown + HeldSince(store, parents)
    && Known(store.runs[parents[|parents| - 1].runId]) == fixed.baselineKnown
  }

  lemma {:induction false} ToldNext(store: Store, fixed: Trial, c: Config, parent: Config, rest: seq<Config>)
    requires ToldExactly(store, fixed, parent, rest) && Stored(store, [parent])
    requires c.trial.Some? && c.trial.value.priorCost == parent.trial.value.priorCost + Known(store.runs[parent.runId])
    requires c.carried == parent.carried + Unknown(store.runs[parent.runId])
    ensures ToldExactly(store, fixed, c, [parent] + rest)
  {
    assert forall p :: p in [parent] + rest ==> p in [parent] || p in rest;
    SumsGrow(store, parent, rest);
    assert ([parent] + rest)[|rest|] == rest[|rest| - 1];
  }

  /**
   The prior cost is exactly what the runs between `c` and the baseline paid; the carried
   hold exactly what they and the baseline still hold.
   */
  lemma {:induction false} WalkIsExact(store: Store, digest: Config -> Hash, fixed: Trial, key: string, c: Config, seen: set<Hash>)
    requires Ancestry(store, digest, fixed, key, c, seen).Some?
    ensures ToldExactly(store, fixed, c, Ancestry(store, digest, fixed, key, c, seen).value)
    decreases MAX_DEPTH - |seen|
  {
    AncestryStep(store, digest, fixed, key, c, seen);
    var parent := ParentOf(store, digest, c).value;
    if parent.runId != fixed.baselineRun {
      var seen' := seen + {digest(c)};
      WalkIsExact(store, digest, fixed, key, parent, seen');
      ToldNext(store, fixed, c, parent, Ancestry(store, digest, fixed, key, parent, seen').value);
    }
  }

  /**
   The cap again, this time from the walk alone: when the history of a run that
   meets the budget equation checks out, everything paid and held since the
   baseline, the run itself included, stays within the experiment's cap. A chain
   that restated its prior cost would not have been walked through.
   */
  lemma {:induction false} WalkedCap(store: Store, digest: Config -> Hash, r: Run)
    requires Bounds(r.config) && r.config.carried <= r.config.budget && Played(r) && !AnyOverrun(r.files)
    requires Ancestry(store, digest, r.config.trial.value, r.config.key, r.config, {}).Some?
    ensures var parents := Ancestry(store, digest, r.config.trial.value, r.config.key, r.config, {}).value;
            && Stored(store, parents)
            && PaidSince(store, parents) + HeldSince(store, parents) + Known(r) + Unknown(r) <= r.config.trial.value.cap
  {
    WalkIsExact(store, digest, r.config.trial.value, r.config.key, r.config, {});
    RunStaysWithin(r);
  }

  // ---------------------------------------------------------------------
  // The probe chain
  // ---------------------------------------------------------------------

  /** One backward step from probe `number` of the given recovery. */
  ghost predicate ProbeStepOk(store: Store, digest: Config -> Hash, recovery: Recovery, c: Config, number: nat) {
    && ProbeNumbered(recovery, c, number)
    && ReceiptOk(store, digest, c)
    && ParentOf(store, digest, c).Some?
    && var parent := ParentOf(store, digest, c).value;
       && Readable(store.runs[parent.runId])
       && EvidenceKept(store, digest, c, parent)
       && TotalsKept(store, digest, c, parent, Known(store.runs[parent.runId]), Unknown(store.runs[parent.runId]))
       && ProbeCarries(c, parent, Known(store.runs[parent.runId]))
  }

  predicate ProbeNumbered(recovery: Recovery, c: Config, number: nat) {
    && c.recovery.Some? && c.recovery.value.stage == Probe && c.recovery.value.ProbeNumber() == number
    && c.recovery.value.originRun == recovery.originRun && c.recovery.value.originHash == recovery.originHash
    && c.recovery.value.eligible == recovery.eligible
  }

  /** A probe keeps the experiment and the frozen identity of the run before it. */
  predicate ProbeCarries(c: Config, parent: Config, known: real) {
    && parent.trial.Some? && c.trial == Some(parent.trial.value.(priorCost := parent.trial.value.priorCost + known))
    && c.recipe == parent.recipe && c.model == parent.model && c.key == parent.key
  }

  ghost predicate OriginOk(store: Store, digest: Config -> Hash, recovery: Recovery, c: Config) {
    && c.runId == recovery.originRun && digest(c) == recovery.originHash && c.recovery.None?
    && c.runId in store.runs && Readable(store.runs[c.runId]) && |store.runs[c.runId].queue| == 30
  }

  /** The runs before probe `number`, nearest first and the stopped thirty-job run last. */
  ghost function Probes(store: Store, digest: Config -> Hash, recovery: Recovery, c: Config, number: nat, seen: set<Hash>)
    : Option<seq<Config>>
    decreases number
  {
    if number == 0 then
      if OriginOk(store, digest, recovery, c) then Some([]) else None
    else if digest(c) in seen || !ProbeStepOk(store, digest, recovery, c, number) then None
    else
      var parent := ParentOf(store, digest, c).value;
      match Probes(store, digest, recovery, parent, number - 1, seen + {digest(c)})
      case None => None
      case Some(rest) => Some([parent] + rest)
  }

  /** One backward step of the loop, from probe `number`. */
  method StepBack(store: Store, digest: Config -> Hash, recovery: Recovery, current: Config, number: nat)
    returns (r: Result<Config, WalkError>)
    ensures r.Success? <==> ProbeStepOk(store, digest, recovery, current, number)
    ensures r.Success? ==> ParentOf(store, digest, current) == Some(r.value)
  {
    if !ProbeNumbered(recovery, current, number) {
      return Failure(WrongProbeOrder);
    }
    var found := ParentOf(store, digest, current);
    if found.None? {
      return Failure(ParentDiffers);
    }
    var parent := found.value;
    var state := ReadState(store.runs[parent.runId]);
    if state.Failure? {
      return Failure(state.error);
    }
    var (known, unknown) := state.value;
    if !ReceiptOk(store, digest, current) {
      return Failure(ReceiptMissingOrDiffers);
    }
    if || !EvidenceKept(store, digest, current, parent)
       || !TotalsKept(store, digest, current, parent, known, unknown)
       || !ProbeCarries(current, parent, known) {
      return Failure(DroppedCharges);
    }
    return Success(parent);
  }

  lemma ProbesStep(store: Store, digest: Config -> Hash, recovery: Recovery, c: Config, number: nat, seen: set<Hash>)
    requires number > 0
    ensures Probes(store, digest, recovery, c, number, seen).Some? <==>
      && digest(c) !in seen && ProbeStepOk(store, digest, recovery, c, number)
      && Probes(store, digest, recovery, ParentOf(store, digest, c).value, number - 1, seen + {digest(c)}).Some?
  {
  }

  /** The end of the loop: the run the probes start from. */
  method CheckOrigin(store: Store, digest: Config -> Hash, recovery: Recovery, current: Config)
    returns (r: Result<Config, WalkError>)
    ensures r.Success? <==> OriginOk(store, digest, recovery, current)
    ensures r.Success? ==> r.value == current
  {
    if current.runId != recovery.originRun || digest(current) != recovery.originHash || current.recovery.Some?
       || current.runId !in store.runs {
      return Failure(WrongOrigin);
    }
    var original := ReadState(store.runs[current.runId]);
    if original.Failure? {
      return Failure(original.error);
    }
    if |store.runs[current.runId].queue| != 30 {
      return Failure(WrongOrigin);
    }
    return Success(current);
  }

  method VerifyChain(store: Store, digest: Config -> Hash, latest: Config, recovery: Recovery)
    returns (r: Result<Config, WalkError>)
    ensures r.Success? <==>
      1 <= recovery.ProbeNumber() <= MAX_PROBES && Probes(store, digest, recovery, latest, recovery.ProbeNumber(), {}).Some?
    ensures r.Success? ==> OriginOk(store, digest, recovery, r.value)
    ensures r.Success? ==>
              && r.value.runId == recovery.originRun && digest(r.value) == recovery.originHash && r.value.recovery.None?
              && r.value.runId in store.runs && |store.runs[r.value.runId].queue| == 30
              && Unanswered(store.runs[r.value.runId].files) == {}
  {
    if !(1 <= recovery.ProbeNumber() <= MAX_PROBES) {
      return Failure(WrongProbeOrder);
    }
    var current := latest;
    var seen: set<Hash> := {};
    for n := recovery.ProbeNumber() downto 0
      invariant Probes(store, digest, recovery, latest, recovery.ProbeNumber(), {}).Some?
           <==> Probes(store, digest, recovery, current, n, seen).Some?
    {
      var h := digest(current);
      ProbesStep(store, digest, recovery, current, n + 1, seen);
      if h in seen {
        return Failure(RepeatsOrTooDeep);
      }
      var parent := StepBack(store, digest, recovery, current, n + 1);
      if parent.Failure? {
        return parent;
      }
      seen := seen + {h};
      current := parent.value;
    }
    r := CheckOrigin(store, digest, recovery, current);
  }

  /** Known charges of every listed run. */
  ghost function PaidBy(store: Store, parents: seq<Config>): real
    requires Stored(store, parents)
  {
    if parents == [] then 0.0 else Known(store.runs[parents[0].runId]) + PaidBy(store, parents[1..])
  }

  ghost function HeldBy(store: Store, parents: seq<Config>): real
    requires Stored(store, parents)
  {
    if parents == [] then 0.0 else Unknown(store.runs[parents[0].runId]) + HeldBy(store, parents[1..])
  }

  /**
   An accepted probe chain has exactly `number` prior runs, no digest twice and the stopped
   thirty-job run at its end.
   */
  lemma {:induction false} ProbesEnd(store: Store, digest: Config -> Hash, recovery: Recovery, c: Config, number: nat,
                                     seen: set<Hash>)
    requires Probes(store, digest, recovery, c, number, seen).Some?
    ensures var parents := Probes(store, digest, recovery, c, number, seen).value;
            && |parents| == number && Stored(store, parents)
            && (forall i :: 0 <= i < |parents| - 1 ==> digest(parents[i]) !in seen + {digest(c)})
            && OriginOk(store, digest, recovery, if number == 0 then c else parents[number - 1])
    decreases number
  {
    if number != 0 {
      ProbesEnd(store, digest, recovery, ParentOf(store, digest, c).value, number - 1, seen + {digest(c)});
    }
  }

  /** A probe's run is not the stopped run it goes back to. */
  lemma DifferentRuns(store: Store, parent: Config, rest: seq<Config>, i: nat)
    requires Stored(store, [parent]) && Stored(store, rest) && i < |rest|
    requires parent.recovery.Some? && rest[i].recovery.None?
    ensures rest[i].runId != parent.runId
  {
    assert parent in [parent] && rest[i] in rest;
  }

  lemma {:induction false} ProbesGoOn(store: Store, digest: Config -> Hash, recovery: Recovery, c: Config, number: nat,
                                      seen: set<Hash>)
    requires number > 1 && Probes(store, digest, recovery, c, number, seen).Some?
    ensures ParentOf(store, digest, c).Some?
    ensures var parent, seen' := ParentOf(store, digest, c).value, seen + {digest(c)};
            && Stored(store, [parent]) && parent.recovery.Some?
            && Probes(store, digest, recovery, parent, number - 1, seen').Some?
            && Probes(store, digest, recovery, c, number, seen).value
                 == [parent] + Probes(store, digest, recovery, parent, number - 1, seen').value
  {
  }

  lemma {:induction false} ProbesVisitOnce(store: Store, digest: Config -> Hash, recovery: Recovery, c: Config, number: nat,
                                           seen: set<Hash>)
    requires Probes(store, digest, recovery, c, number, seen).Some?
    ensures EachOnce(Probes(store, digest, recovery, c, number, seen).value)
    decreases number
  {
    if number > 1 {
      ProbesGoOn(store, digest, recovery, c, number, seen);
      var parent := ParentOf(store, digest, c).value;
      var seen' := seen + {digest(c)};
      ProbesVisitOnce(store, digest, recovery, parent, number - 1, seen');
      ProbesEnd(store, digest, recovery, parent, number - 1, seen');
      var rest := Probes(store, digest, recovery, parent, number - 1, seen').value;
      DifferentRuns(store, parent, rest, |rest| - 1);
      NotAgain(store, digest, parent, rest);
    }
  }

  /** The configuration is of probe `number` of the same origin; without a number it is the first. */
  ghost predicate IsProbe(recovery: Recovery, c: Config, number: int) {
    && c.recovery.Some? && c.recovery.value.stage == Probe
    && (if c.recovery.value.number.Some? then c.recovery.value.number.value == number else number == 1)
    && c.recovery.value.originRun == recovery.originRun && c.recovery.value.originHash == recovery.originHash
    && c.recovery.value.eligible == recovery.eligible
  }

  lemma {:induction false} ProbeIsEvidenced(store: Store, digest: Config -> Hash, recovery: Recovery, c: Config, number: nat,
                                            seen: set<Hash>) returns (parent: Config, rest: seq<Config>)
    requires number > 0 && Probes(store, digest, recovery, c, number, seen).Some?
    ensures Probes(store, digest, recovery, c, number, seen).value == [parent] + rest
    ensures Probes(store, digest, recovery, parent, number - 1, seen + {digest(c)}) == Some(rest)
    ensures Evidenced(store, digest, c.key, c, parent) && IsProbe(recovery, c, number) && parent.key == c.key
  {
    parent := ParentOf(store, digest, c).value;
    rest := Probes(store, digest, recovery, parent, number - 1, seen + {digest(c)}).value;
    StepIsEvidenced(store, digest, c.key, c, parent);
  }

  /** From probe `number` down: each configuration is of the probe whose turn it is, and its parent is evidenced. */
  ghost predicate EvidencedDown(store: Store, digest: Config -> Hash, recovery: Recovery, key: string, c: Config,
                                parents: seq<Config>, number: int)
    decreases |parents|
  {
    parents == [] ||
    (&& Evidenced(store, digest, key, c, parents[0]) && IsProbe(recovery, c, number)
     && EvidencedDown(store, digest, recovery, key, parents[0], parents[1..], number - 1))
  }

  /** Every step of an accepted probe chain is evidenced, and the probes count down to the first. */
  lemma {:induction false} ProbesAreEvidenced(store: Store, digest: Config -> Hash, recovery: Recovery, c: Config,
                                              number: nat, seen: set<Hash>)
    requires Probes(store, digest, recovery, c, number, seen).Some?
    ensures EvidencedDown(store, digest, recovery, c.key, c, Probes(store, digest, recovery, c, number, seen).value, number)
    decreases number
  {
    if number > 0 {
      var parent, rest := ProbeIsEvidenced(store, digest, recovery, c, number, seen);
      ProbesAreEvidenced(store, digest, recovery, parent, number - 1, seen + {digest(c)});
      OneMoreProbe(store, digest, recovery, c, parent, rest, number);
    }
  }

  lemma {:induction false} OneMoreProbe(store: Store, digest: Config -> Hash, recovery: Recovery, c: Config, parent: Config,
                                        rest: seq<Config>, number: int)
    requires Evidenced(store, digest, c.key, c, parent) && IsProbe(recovery, c, number)
    requires EvidencedDown(store, digest, recovery, c.key, parent, rest, number - 1)
    ensures EvidencedDown(store, digest, recovery, c.key, c, [parent] + rest, number)
  {
    assert ([parent] + rest)[1..] == rest;
  }

  /**
   The latest probe's prior cost and carried hold grew from the origin's by exactly what
   the listed runs paid and hold.
   */
  lemma {:induction false} ProbesAreExact(store: Store, digest: Config -> Hash, recovery: Recovery, c: Config, number: nat,
                                          seen: set<Hash>)
    requires number > 0 && Probes(store, digest, recovery, c, number, seen).Some?
    ensures var parents := Probes(store, digest, recovery, c, number, seen).value;
            && |parents| == number && Stored(store, parents)
            && var origin := parents[number - 1];
               && c.carried == origin.carried + HeldBy(store, parents)
               && c.trial.Some? && origin.trial.Some?
               && c.trial.value == origin.trial.value.(priorCost := origin.trial.value.priorCost + PaidBy(store, parents))
               && c.recipe == origin.recipe && c.model == origin.model && c.key == origin.key
    decreases number
  {
    var parent := ParentOf(store, digest, c).value;
    if number > 1 {
      var seen' := seen + {digest(c)};
      ProbesAreExact(store, digest, recovery, parent, number - 1, seen');
      var rest := Probes(store, digest, recovery, parent, number - 1, seen').value;
      assert ([parent] + rest)[1..] == rest;
    } else {
      assert Probes(store, digest, recovery, c, number, seen).value == [parent];
    }
  }
}
