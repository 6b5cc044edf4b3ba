/**
 Why a run stops: read off the answers of a history, without the memory the loop
 keeps of them.
 */
module StopReasons {
  import opened Wrappers
  import opened QueueSums
  import opened QueueLedger
  import opened QueueSafety

  const WINDOW := 16

  /** The errors the run in progress knows of after `n` events: the saved ones it started on, then one per answer. */
  ghost function ErrorsSeen(h: History, n: nat): seq<ErrorKind>
    requires n <= |h.events|
  {
    if n == 0 then [] else
      match h.events[n - 1]
      case Resume(_, recentSaved) => recentSaved
      case Finish(_, answer) => ErrorsSeen(h, n - 1) + [answer.error]
      case _ => ErrorsSeen(h, n - 1)
  }

  ghost function Latest(errors: seq<ErrorKind>): seq<ErrorKind> {
    if |errors| <= WINDOW then errors else errors[|errors| - WINDOW..]
  }

  /** Event `k` is an answer that cost more than its attempt had reserved. */
  ghost predicate Overran(h: History, k: nat)
    requires k < |h.events| <= |h.states|
  {
    && h.events[k].Finish? && h.events[k].answer.cost.Some?
    && h.events[k].id in h.states[k].working.attempts
    && h.states[k].working.attempts[h.events[k].id] < h.events[k].answer.cost.value
  }

  /** Event `k` is an answer that leaves four provider errors among the latest sixteen. */
  ghost predicate ProviderFailed(h: History, k: nat)
    requires k < |h.events|
  {
    h.events[k].Finish? && multiset(Latest(ErrorsSeen(h, k + 1)))[ProviderError] >= 4
  }

  /** Event `k` is an answer that leaves eight validation errors among the latest sixteen, outside a quality trial. */
  ghost predicate ValidationFailed(c: Setup, h: History, k: nat)
    requires k < |h.events|
  {
    && h.events[k].Finish? && !c.qualityTrial
    && multiset(Latest(ErrorsSeen(h, k + 1)))[ValidationError] >= 8
  }

  ghost predicate Failed(c: Setup, h: History, k: nat)
    requires k < |h.events| <= |h.states|
  {
    Overran(h, k) || ProviderFailed(h, k) || ValidationFailed(c, h, k)
  }

  predicate IsFailure(stop: Option<StopReason>) {
    stop in {Some(CostExceedsReservation), Some(ProviderBurst), Some(ValidationBurst)}
  }

  predicate ShowsFailure(f: Files) {
    f.progress.Some? && IsFailure(f.progress.value.stop)
  }

  /** No run begins between the two. */
  ghost predicate SameRun(h: History, j: nat, i: nat) {
    j <= i <= |h.events| && forall k :: j <= k < i ==> !h.events[k].Resume?
  }

  // ---------------------------------------------------------------------
  // The loop's memory of errors
  // ---------------------------------------------------------------------

  lemma LatestAgree(kept: seq<ErrorKind>, seen: seq<ErrorKind>, error: ErrorKind)
    requires Latest(kept) == Latest(seen)
    ensures Pushed(kept, error) == Latest(seen + [error]) == Latest(Latest(seen + [error]))
  {
    assert |kept| >= WINDOW ==> kept[|kept| - 15..] == Latest(kept)[1..];
    assert |seen| >= WINDOW ==> seen[|seen| - 15..] == Latest(seen)[1..];
    assert |seen| >= WINDOW ==> (seen + [error])[|seen| + 1 - WINDOW..] == seen[|seen| - 15..] + [error];
  }

  lemma {:induction false} RemembersErrors(c: Setup, h: History, n: nat)
    requires Legal(c, h) && n <= |h.events| && h.states[n].mem.Up?
    ensures Latest(h.states[n].mem.recent) == Latest(ErrorsSeen(h, n))
  {
    if n > 0 {
      assert Steps(c, h.states[n - 1], h.events[n - 1], h.states[n]);
      if !h.events[n - 1].Resume? {
        RemembersErrors(c, h, n - 1);
        if h.events[n - 1].Finish? {
          LatestAgree(h.states[n - 1].mem.recent, ErrorsSeen(h, n - 1), h.events[n - 1].answer.error);
        }
      }
    }
  }

  // ---------------------------------------------------------------------
  // The stop reason
  // ---------------------------------------------------------------------

  lemma FinishedReason(c: Setup, s: State, id: string, a: Answer, seen: seq<ErrorKind>)
    requires CanFinish(s, id, a) && Latest(s.mem.recent) == Latest(seen)
    ensures var latest := multiset(Latest(seen + [a.error]));
            Finished(c, s, id, a).mem.loop.stop ==
            if !c.qualityTrial && latest[ValidationError] >= 8 then Some(ValidationBurst)
            else if latest[ProviderError] >= 4 then Some(ProviderBurst)
            else if a.cost.Some? && s.mem.flight.active[id] < a.cost.value then Some(CostExceedsReservation)
            else s.mem.loop.stop
  {
    LatestAgree(s.mem.recent, seen, a.error);
  }

  /** What an answer does to the stop reason; the later test wins, and without a failure nothing changes. */
  lemma LaterTestsWin(c: Setup, h: History, k: nat)
    requires ValidSetup(c) && Legal(c, h) && k < |h.events| && h.events[k].Finish?
    ensures h.states[k].mem.Up? && h.states[k + 1].mem.Up?
    ensures h.states[k + 1].mem.loop.stop ==
            if ValidationFailed(c, h, k) then Some(ValidationBurst)
            else if ProviderFailed(h, k) then Some(ProviderBurst)
            else if Overran(h, k) then Some(CostExceedsReservation)
            else h.states[k].mem.loop.stop
  {
    var s, id, answer := h.states[k], h.events[k].id, h.events[k].answer;
    assert Steps(c, s, h.events[k], h.states[k + 1]);
    EveryRunKeeps(c, h, k);
    RemembersErrors(c, h, k);
    OutIsAttempted(c, s, id);
    FinishedReason(c, s, id, answer, ErrorsSeen(h, k));
    assert ErrorsSeen(h, k + 1) == ErrorsSeen(h, k) + [answer.error];
  }

  /** Only an answer can set a failure reason, and what has a reason keeps one. */
  lemma OtherSteps(c: Setup, h: History, k: nat)
    requires ValidSetup(c) && Legal(c, h) && k < |h.events| && !h.events[k].Finish?
    requires h.states[k].mem.Up? && h.states[k + 1].mem.Up?
    ensures h.states[k].mem.loop.stop.Some? ==> h.states[k + 1].mem.loop.stop == h.states[k].mem.loop.stop
    ensures h.states[k + 1].mem.loop.stop == h.states[k].mem.loop.stop
         || h.states[k + 1].mem.loop.stop in {Some(Interrupted), Some(TimeSliceComplete), Some(PreflightFailed), Some(BudgetLimit)}
  {
    assert Steps(c, h.states[k], h.events[k], h.states[k + 1]);
  }

  /** Step `k` stays in its run and keeps a stop reason if there is one. */
  ghost predicate KeepsAt(h: History, k: nat)
    requires k < |h.events| && |h.states| == |h.events| + 1
  {
    h.states[k + 1].mem.Up? && !h.events[k].Resume? ==>
      h.states[k].mem.Up? && (h.states[k].mem.loop.stop.Some? ==> h.states[k + 1].mem.loop.stop.Some?)
  }

  lemma StepKeeps(c: Setup, h: History, k: nat)
    requires ValidSetup(c) && Legal(c, h) && k < |h.events|
    ensures KeepsAt(h, k)
  {
    assert Steps(c, h.states[k], h.events[k], h.states[k + 1]);
    if h.events[k].Finish? {
      LaterTestsWin(c, h, k);
    } else if h.states[k].mem.Up? && h.states[k + 1].mem.Up? {
      OtherSteps(c, h, k);
    }
  }

  lemma {:induction false} ReasonKept(h: History, j: nat, i: nat)
    requires |h.states| == |h.events| + 1 && SameRun(h, j, i) && h.states[i].mem.Up?
    requires forall k: nat :: j <= k < i ==> KeepsAt(h, k)
    ensures h.states[j].mem.Up?
    ensures h.states[j].mem.loop.stop.Some? ==> h.states[i].mem.loop.stop.Some?
  {
    if j < i {
      assert KeepsAt(h, i - 1);
      ReasonKept(h, j, i - 1);
    }
  }

  lemma KeepsReason(c: Setup, h: History, j: nat, i: nat)
    requires ValidSetup(c) && Legal(c, h) && SameRun(h, j, i) && h.states[i].mem.Up?
    ensures h.states[j].mem.Up?
    ensures h.states[j].mem.loop.stop.Some? ==> h.states[i].mem.loop.stop.Some?
  {
    forall k: nat | j <= k < i
      ensures KeepsAt(h, k)
    {
      StepKeeps(c, h, k);
    }
    ReasonKept(h, j, i);
  }

  lemma StoppedAdmitsNothing(c: Setup, h: History, i: nat)
    requires Legal(c, h) && i < |h.events| && h.states[i].mem.Up? && h.states[i].mem.loop.stop.Some?
    ensures !h.events[i].Admit?
  {
    assert Steps(c, h.states[i], h.events[i], h.states[i + 1]);
  }

  /**
   Once an answer cost more than its reservation, or left four provider errors among
   the latest sixteen, or eight validation errors outside a quality trial, the run has
   a stop reason as long as it lasts, and admits nothing more.
   */
  lemma FailureStopsRun(c: Setup, h: History, k: nat, i: nat)
    requires ValidSetup(c) && Legal(c, h) && k < |h.events| && Failed(c, h, k)
    requires SameRun(h, k + 1, i) && h.states[i].mem.Up?
    ensures h.states[i].mem.loop.stop.Some?
    ensures i < |h.events| ==> !h.events[i].Admit?
  {
    LaterTestsWin(c, h, k);
    KeepsReason(c, h, k + 1, i);
    if i < |h.events| {
      StoppedAdmitsNothing(c, h, i);
    }
  }

  /** Event `k` gave cause for the reason. */
  ghost predicate Caused(c: Setup, h: History, k: nat, reason: StopReason)
    requires k < |h.events| <= |h.states|
  {
    match reason
    case CostExceedsReservation => Overran(h, k)
    case ProviderBurst => ProviderFailed(h, k)
    case ValidationBurst => ValidationFailed(c, h, k)
    case _ => false
  }

  /** A failure reason is new only where the answer just taken in gave cause for it. */
  lemma CausedOrKept(c: Setup, h: History, i: nat, reason: StopReason)
    requires ValidSetup(c) && Legal(c, h) && i < |h.events| && h.states[i + 1].mem.Up?
    requires IsFailure(Some(reason)) && h.states[i + 1].mem.loop.stop == Some(reason)
    ensures Caused(c, h, i, reason)
         || (!h.events[i].Resume? && h.states[i].mem.Up? && h.states[i].mem.loop.stop == Some(reason))
  {
    assert Steps(c, h.states[i], h.events[i], h.states[i + 1]);
    if h.events[i].Finish? {
      LaterTestsWin(c, h, i);
    } else if h.states[i].mem.Up? {
      OtherSteps(c, h, i);
    }
  }

  /** Where step `k` leads to the reason, it caused it or found it in the same run. */
  ghost predicate CausedAt(c: Setup, h: History, k: nat, reason: StopReason)
    requires k < |h.events| && |h.states| == |h.events| + 1
  {
    h.states[k + 1].mem.Up? && h.states[k + 1].mem.loop.stop == Some(reason) ==>
      || Caused(c, h, k, reason)
      || (!h.events[k].Resume? && h.states[k].mem.Up? && h.states[k].mem.loop.stop == Some(reason))
  }

  lemma {:induction false} CauseOf(c: Setup, h: History, i: nat, reason: StopReason) returns (k: nat)
    requires |h.states| == |h.events| + 1 && i <= |h.events| && h.states[0].mem.Down?
    requires h.states[i].mem.Up? && h.states[i].mem.loop.stop == Some(reason)
    requires forall n: nat :: n < i ==> CausedAt(c, h, n, reason)
    ensures k < i && SameRun(h, k + 1, i) && Caused(c, h, k, reason)
  {
    assert CausedAt(c, h, i - 1, reason);
    if Caused(c, h, i - 1, reason) {
      k := i - 1;
    } else {
      k := CauseOf(c, h, i - 1, reason);
      SameRunOn(h, k + 1, i - 1);
    }
  }

  /** A failure reason stands only where an answer of the same run gave cause for it. */
  lemma ReasonHasCause(c: Setup, h: History, i: nat, reason: StopReason) returns (k: nat)
    requires ValidSetup(c) && Legal(c, h) && i <= |h.events| && h.states[i].mem.Up?
    requires IsFailure(Some(reason)) && h.states[i].mem.loop.stop == Some(reason)
    ensures k < i && SameRun(h, k + 1, i) && Caused(c, h, k, reason)
  {
    StartsDown(c, h);
    forall n: nat | n < i
      ensures CausedAt(c, h, n, reason)
    {
      StepCauses(c, h, n, reason);
    }
    k := CauseOf(c, h, i, reason);
  }

  lemma StepCauses(c: Setup, h: History, k: nat, reason: StopReason)
    requires ValidSetup(c) && Legal(c, h) && k < |h.events| && IsFailure(Some(reason))
    ensures CausedAt(c, h, k, reason)
  {
    if h.states[k + 1].mem.Up? && h.states[k + 1].mem.loop.stop == Some(reason) {
      CausedOrKept(c, h, k, reason);
    }
  }

  lemma StartsDown(c: Setup, h: History)
    requires Legal(c, h)
    ensures h.states[0].mem.Down?
  {
  }

  lemma SameRunOn(h: History, j: nat, i: nat)
    requires SameRun(h, j, i) && i < |h.events| && !h.events[i].Resume?
    ensures SameRun(h, j, i + 1)
  {
  }

  // ---------------------------------------------------------------------
  // After the run
  // ---------------------------------------------------------------------

  /** A run starts only on files without an overrun, on few enough saved errors, and not after a reported failure. */
  lemma StartsOnCleanFiles(c: Setup, h: History, k: nat)
    requires Legal(c, h) && k < |h.events| && h.events[k].Resume?
    ensures var f, saved := h.states[k].working, h.events[k].recentSaved;
            && (forall id :: id in f.attempts && id in f.results && f.results[id].cost.Some? ==>
                  f.results[id].cost.value <= f.attempts[id])
            && multiset(saved)[ProviderError] < 4
            && (c.qualityTrial || multiset(saved)[ValidationError] < 8)
            && !ShowsFailure(f)
  {
    assert Steps(c, h.states[k], h.events[k], h.states[k + 1]);
    forall id | id in h.states[k].working.attempts && HasCost(h.states[k].working, id)
      ensures h.states[k].working.results[id].cost.value <= h.states[k].working.attempts[id]
    {
      assert !AnyOverrun(h.states[k].working);
    }
  }

  /** A failure is on file, and the run that met it, if still there, remembers it. */
  ghost predicate Marked(s: State) {
    ShowsFailure(s.working) && ShowsFailure(s.durable) && (s.mem.Up? ==> IsFailure(s.mem.loop.stop))
  }

  lemma MarkStays(c: Setup, s: State, ev: Event)
    requires Marked(s) && Enabled(c, s, ev)
    ensures !ev.Resume? && Marked(Apply(c, s, ev))
  {
  }

  lemma {:induction false} MarkStaysOn(c: Setup, h: History, j: nat, i: nat)
    requires Legal(c, h) && j <= i <= |h.events| && Marked(h.states[j])
    ensures Marked(h.states[i])
  {
    if j < i {
      MarkStaysOn(c, h, j, i - 1);
      assert Steps(c, h.states[i - 1], h.events[i - 1], h.states[i]);
      MarkStays(c, h.states[i - 1], h.events[i - 1]);
    }
  }

  /** While the progress file is written but not committed, it shows the reason of the run. */
  lemma ReportingShows(c: Setup, h: History, j: nat)
    requires Legal(c, h) && j <= |h.events| && h.states[j].mem.Up? && h.states[j].mem.loop.phase == Reporting
    ensures h.states[j].working.progress.Some? && h.states[j].working.progress.value.stop == h.states[j].mem.loop.stop
  {
    assert j > 0;
    assert Steps(c, h.states[j - 1], h.events[j - 1], h.states[j]);
  }

  /** Once a run has committed a progress file after a failure, or returned after one, no run ever starts again. */
  lemma FailureIsFinal(c: Setup, h: History, j: nat, k: nat)
    requires ValidSetup(c) && Legal(c, h) && j < k < |h.events|
    requires h.states[j].mem.Up? && IsFailure(h.states[j].mem.loop.stop)
    requires h.events[j].CommitProgress? || h.events[j].Return?
    ensures !h.events[k].Resume?
  {
    EveryRunKeeps(c, h, j);
    assert Steps(c, h.states[j], h.events[j], h.states[j + 1]);
    if h.events[j].CommitProgress? {
      ReportingShows(c, h, j);
    }
    assert Marked(h.states[j + 1]);
    MarkStaysOn(c, h, j + 1, k);
    assert Steps(c, h.states[k], h.events[k], h.states[k + 1]);
    MarkStays(c, h.states[k], h.events[k]);
  }
}
