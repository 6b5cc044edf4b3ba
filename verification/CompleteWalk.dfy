/**
 The backward walk measured against the chains it is meant to check: on records that
 were kept as the transitions left them it refuses exactly those chains in which a
 second arm reset the experiment's prior cost.
 */
module CompleteWalk {
  import opened Wrappers
  import opened BudgetChain
  import opened HistoryWalk

  /** The run and its configuration are on the volumes, unchanged. */
  ghost predicate Filed(store: Store, r: Run) {
    && r.config.runId in store.inputs && store.inputs[r.config.runId] == r.config
    && r.config.runId in store.runs && store.runs[r.config.runId] == r
  }

  /** The receipt an accepted transition archives. */
  ghost predicate Receipted(store: Store, digest: Config -> Hash, p: Run, n: Run) {
    var pair := (digest(p.config), digest(n.config));
    && n.config.prior.Some? && pair in store.archive
    && store.archive[pair] == Receipt(p.config.runId, digest(p.config), n.config.runId, digest(n.config),
                                      n.config.prior.value, n.config.carried, p.files.attempts, p.files.results)
  }

  /** The volumes hold a whole chain, and what the baseline itself carried in. */
  ghost predicate Archived(store: Store, digest: Config -> Hash, runs: seq<Run>) {
    && |runs| > 0 && ReceiptOk(store, digest, runs[0].config)
    && (forall r :: r in runs ==> Filed(store, r))
    && (forall i :: 0 < i < |runs| ==> Receipted(store, digest, runs[i - 1], runs[i]))
  }

  /** The history check a reviewed step makes of its prior run. */
  ghost predicate HistoryPasses(store: Store, digest: Config -> Hash, c: Config) {
    c.trial.Some? && Ancestry(store, digest, c.trial.value, c.key, c, {}).Some?
  }

  ghost predicate Distinguished(digest: Config -> Hash, runs: seq<Run>) {
    forall i, j :: 0 <= i < j < |runs| ==> digest(runs[i].config) != digest(runs[j].config)
  }

  lemma StepChecksOut(store: Store, digest: Config -> Hash, key: string, p: Run, n: Run)
    requires Filed(store, p) && Receipted(store, digest, p, n) && CarriesOver(digest, p, n)
    requires ReceiptOk(store, digest, p.config) && p.config.key == key
    ensures ParentOf(store, digest, n.config) == Some(p.config)
    ensures StepOk(store, digest, key, n.config)
  {
  }

  lemma ReceiptOfAccepted(store: Store, digest: Config -> Hash, p: Run, n: Run)
    requires Receipted(store, digest, p, n) && CarriesOver(digest, p, n)
    ensures ReceiptOk(store, digest, n.config)
  {
  }

  /** What every accepted chain keeps from its first run on. */
  lemma {:induction false} ChainKeeps(store: Store, digest: Config -> Hash, runs: seq<Run>)
    requires Chain(digest, runs) && Archived(store, digest, runs)
    ensures Last(runs).config.trial.Some? && Last(runs).config.trial.value.baselineRun == runs[0].config.runId
    ensures Last(runs).config.key == runs[0].config.key
    ensures ReceiptOk(store, digest, Last(runs).config)
    decreases |runs|
  {
    AcceptedCarries(digest, runs);
    assert Receipted(store, digest, runs[|runs| - 2], runs[|runs| - 1]);
    ReceiptOfAccepted(store, digest, Last(Front(runs)), Last(runs));
    if |runs| > 2 {
      FrontArchived(store, digest, runs);
      ChainKeeps(store, digest, Front(runs));
      StepKeepsExperiment(digest, Last(Front(runs)), Last(runs));
    }
  }

  lemma FrontArchived(store: Store, digest: Config -> Hash, runs: seq<Run>)
    requires Archived(store, digest, runs) && |runs| >= 2
    ensures Archived(store, digest, Front(runs))
  {
    forall i | 0 < i < |Front(runs)|
      ensures Receipted(store, digest, Front(runs)[i - 1], Front(runs)[i])
    {
      assert Receipted(store, digest, runs[i - 1], runs[i]);
    }
  }

  /** An accepted step adds the prior run's charges to the prior cost, or resets it to them alone and switches the arm. */
  lemma StepKeepsExperiment(digest: Config -> Hash, p: Run, n: Run)
    requires Follows(digest, p, n)
    ensures p.config.trial.Some? && n.config.trial.Some?
    ensures var t, u := p.config.trial.value, n.config.trial.value;
            && SameExperiment(u, t)
            && u.priorCost == Known(p) + (if t.arm == u.arm then t.priorCost else 0.0)
  {
  }

  /** One turn of the walk. */
  lemma {:induction false} WalkTurns(store: Store, digest: Config -> Hash, fixed: Trial, key: string, c: Config, seen: set<Hash>, p: Run)
    requires digest(c) !in seen && |seen| < MAX_DEPTH && StepOk(store, digest, key, c)
    requires Filed(store, p) && ParentOf(store, digest, c) == Some(p.config)
    ensures Ancestry(store, digest, fixed, key, c, seen).Some? <==>
      if p.config.runId == fixed.baselineRun then BaselineOk(digest, fixed, c, p.config, Known(p))
      else TrialOk(fixed, c, p.config, Known(p))
           && Ancestry(store, digest, fixed, key, p.config, seen + {digest(c)}).Some?
  {
  }

  lemma {:induction false} LastStepChecksOut(store: Store, digest: Config -> Hash, runs: seq<Run>, key: string)
    requires Chain(digest, runs) && Archived(store, digest, runs) && key == runs[0].config.key
    ensures Filed(store, Last(Front(runs))) && Filed(store, runs[0])
    ensures ParentOf(store, digest, Last(runs).config) == Some(Last(Front(runs)).config)
    ensures StepOk(store, digest, key, Last(runs).config)
  {
    AcceptedCarries(digest, runs);
    FrontArchived(store, digest, runs);
    assert Last(Front(runs)) == runs[|runs| - 2] && runs[|runs| - 2] in runs && runs[0] in runs;
    if |runs| > 2 {
      ChainKeeps(store, digest, Front(runs));
    }
    assert Receipted(store, digest, runs[|runs| - 2], runs[|runs| - 1]);
    StepChecksOut(store, digest, key, Last(Front(runs)), Last(runs));
  }

  /**
   The walk finds the prior cost added up unless the last run is a second arm after one
   something had been paid before.
   */
  lemma {:induction false} LastStepAddsUp(digest: Config -> Hash, runs: seq<Run>, fixed: Trial)
    requires Chain(digest, runs) && |runs| > 2
    requires Last(runs).config.trial.Some? && SameExperiment(Last(runs).config.trial.value, fixed)
    ensures Last(Front(runs)).config.trial.Some? && SameExperiment(Last(Front(runs)).config.trial.value, fixed)
    ensures TrialOk(fixed, Last(runs).config, Last(Front(runs)).config, Known(Last(Front(runs))))
       <==> (OpensSecondArm(runs) ==> PaidBeforePrior(runs) == 0.0)
  {
    StepKeepsExperiment(digest, Last(Front(runs)), Last(runs));
  }

  lemma NotTheBaseline(store: Store, digest: Config -> Hash, runs: seq<Run>)
    requires Archived(store, digest, runs) && Distinguished(digest, runs) && |runs| > 2
    ensures Last(Front(runs)).config.runId != runs[0].config.runId
  {
    assert Last(Front(runs)) == runs[|runs| - 2] && runs[|runs| - 2] in runs && runs[0] in runs;
  }

  /**
   The walk from the last run of a chain gets through to the baseline exactly when every
   second arm followed an unpaid one.
   */
  lemma {:induction false} WalkFrom(store: Store, digest: Config -> Hash, runs: seq<Run>, fixed: Trial, key: string, seen: set<Hash>)
    requires Chain(digest, runs) && Archived(store, digest, runs) && Distinguished(digest, runs)
    requires forall i :: 0 <= i < |runs| ==> digest(runs[i].config) !in seen
    requires |seen| + |runs| - 1 <= MAX_DEPTH && key == runs[0].config.key
    requires Last(runs).config.trial.Some? && SameExperiment(Last(runs).config.trial.value, fixed)
    ensures Ancestry(store, digest, fixed, key, Last(runs).config, seen).Some? <==> SecondArmsFollowUnpaid(runs)
    decreases |runs|
  {
    var c, before := Last(runs).config, Front(runs);
    var p := Last(before);
    ChainKeeps(store, digest, runs);
    LastStepChecksOut(store, digest, runs, key);
    WalkTurns(store, digest, fixed, key, c, seen, p);
    if |runs| > 2 {
      LastStepAddsUp(digest, runs, fixed);
      NotTheBaseline(store, digest, runs);
      FrontArchived(store, digest, runs);
      WalkFrom(store, digest, before, fixed, key, seen + {digest(c)});
    }
  }

  /**
   On records kept as the transitions left them, the history check of a reviewed trial
   refuses a chain of at most sixty-four steps exactly when a second arm in it reset the prior cost.
   */
  lemma {:induction false} WalkRefusesResets(store: Store, digest: Config -> Hash, runs: seq<Run>)
    requires Chain(digest, runs) && Archived(store, digest, runs) && Distinguished(digest, runs)
    requires |runs| - 1 <= MAX_DEPTH
    ensures Last(runs).config.trial.Some?
    ensures HistoryPasses(store, digest, Last(runs).config) <==> SecondArmsFollowUnpaid(runs)
  {
    ChainKeeps(store, digest, runs);
    WalkFrom(store, digest, runs, Last(runs).config.trial.value, runs[0].config.key, {});
  }
}
