/**
 What every step of the ledger keeps, and what that means for a whole run: any
 interleaving of admissions, answers, balance checks, crashes and restarts.
 */
module QueueSafety {
  import opened Collections
  import opened Wrappers
  import opened QueueSums
  import opened QueueLedger

  // ---------------------------------------------------------------------
  // Files, flight and loop
  // ---------------------------------------------------------------------

  lemma SameEntry(q: Queue, x: Entry, y: Entry)
    requires DistinctIds(q) && x in q && y in q && x.id == y.id
    ensures x == y
  {
    var i :| 0 <= i < |q| && q[i] == x;
    var j :| 0 <= j < |q| && q[j] == y;
    assert i == j;
  }

  lemma AdmittedFiles(c: Setup, f: Files, e: Entry)
    requires DistinctIds(c.queue) && e in c.queue && FilesOk(c, f)
    ensures FilesOk(c, WithAttempt(f, e))
  {
    forall x | x in c.queue && x.id in WithAttempt(f, e).attempts
      ensures WithAttempt(f, e).attempts[x.id] == x.reserve
    {
      if x.id == e.id {
        SameEntry(c.queue, x, e);
      }
    }
    assert e.id in Ids(c.queue);
  }

  lemma AdmittedFlight(f: Files, charges: map<string, real>, x: Flight, e: Entry)
    requires FlightOk(f, charges, x) && e.id !in f.attempts && e.id !in f.results && e.id !in charges
    ensures FlightOk(WithAttempt(f, e), charges, x.(wave := x.wave + [e]))
  {
    forall y | y in x.wave
      ensures y.id != e.id
    {
    }
  }

  lemma AdmitShape(c: Setup, s: State)
    requires ValidSetup(c) && Shape(c, s) && CanAdmit(c, s)
    ensures Shape(c, Admitted(c, s))
  {
    AdmittedFiles(c, s.working, c.queue[s.mem.loop.cursor]);
    AdmittedFlight(s.working, s.charges, s.mem.flight, c.queue[s.mem.loop.cursor]);
  }

  lemma SentFlight(f: Files, charges: map<string, real>, x: Flight, charge: real)
    requires FlightOk(f, charges, x) && x.wave != []
    ensures FlightOk(f, charges[x.wave[0].id := charge], Sent(x))
    ensures Sent(x).Ids() == x.Ids()
  {
    var e := x.wave[0];
    var rest := x.wave[1..];
    assert x.wave == [e] + rest;
    forall y | y in rest ensures y in x.wave && y.id != e.id {
      var i :| 0 <= i < |rest| && rest[i] == y;
      assert x.wave[i + 1] == y;
    }
    assert DistinctIds(rest) by {
      forall i, j | 0 <= i < j < |rest| ensures rest[i].id != rest[j].id {
        assert x.wave[i + 1] == rest[i] && x.wave[j + 1] == rest[j];
      }
    }
  }

  lemma DispatchShape(c: Setup, s: State, charge: real)
    requires Shape(c, s) && CanDispatch(s, charge)
    ensures Shape(c, Dispatched(s, charge))
  {
    assert s.mem.flight.wave[0] in s.mem.flight.wave;
    SentFlight(s.working, s.charges, s.mem.flight, charge);
  }

  lemma FinishShape(c: Setup, s: State, id: string, a: Answer)
    requires Shape(c, s) && CanFinish(s, id, a)
    ensures Shape(c, Finished(c, s, id, a))
  {
  }

  lemma ResumeShape(c: Setup, s: State, remaining: real, recentSaved: seq<ErrorKind>)
    requires Shape(c, s) && CanResume(c, s, recentSaved)
    ensures Shape(c, Resumed(c, s, remaining, recentSaved))
  {
  }

  lemma CommitShape(c: Setup, s: State, phase: Phase)
    requires Shape(c, s) && s.mem.Up?
    requires (phase == Dispatching && s.mem.loop.phase == Admitting && s.mem.flight.wave != [])
          || (phase == Admitting && s.mem.loop.phase == Reporting)
    ensures Shape(c, InPhase(s.(durable := s.working), phase))
  {
  }

  lemma ReportShape(c: Setup, s: State)
    requires Shape(c, s) && CanReport(s)
    ensures Shape(c, Reported(c, s))
  {
  }

  lemma CrashShape(c: Setup, s: State, kept: Files)
    requires Shape(c, s) && CanSurvive(s, kept)
    ensures Shape(c, s.(working := kept, durable := kept, mem := Down))
  {
  }

  lemma SkipShape(c: Setup, s: State)
    requires Shape(c, s) && NextStarted(c, s)
    ensures Shape(c, s.(mem := s.mem.(loop := Passed(s.mem.loop))))
  {
  }

  lemma ExhaustShape(c: Setup, s: State)
    requires Shape(c, s) && MayAdmit(c, s.mem) && s.mem.loop.cursor == |c.queue|
    ensures Shape(c, s.(mem := s.mem.(loop := s.mem.loop.(exhausted := true))))
  {
    forall e | e in c.queue
      ensures e.id in s.working.attempts
    {
      var i :| 0 <= i < |c.queue| && c.queue[i] == e;
    }
  }

  /** The other steps touch neither files nor requests nor what was admitted. */
  lemma LoopShape(c: Setup, s: State, ev: Event)
    requires ValidSetup(c) && Shape(c, s) && Enabled(c, s, ev)
    requires ev.Halt? || ev.Refresh? || ev.RefreshFailed? || ev.RefuseOverBudget? || ev.Await? || ev.Return?
    ensures Shape(c, Apply(c, s, ev))
  {
  }

  lemma StepShape(c: Setup, s: State, ev: Event)
    requires ValidSetup(c) && Shape(c, s) && Enabled(c, s, ev)
    ensures Shape(c, Apply(c, s, ev))
  {
    match ev
    case Admit => AdmitShape(c, s);
    case Dispatch(charge) => DispatchShape(c, s, charge);
    case Finish(id, a) => FinishShape(c, s, id, a);
    case Resume(remaining, recentSaved) => ResumeShape(c, s, remaining, recentSaved);
    case CommitWave => CommitShape(c, s, Dispatching);
    case CommitProgress => CommitShape(c, s, Admitting);
    case WriteProgress => ReportShape(c, s);
    case Crash(kept) => CrashShape(c, s, kept);
    case Skip => SkipShape(c, s);
    case Exhaust => ExhaustShape(c, s);
    case _ => LoopShape(c, s, ev);
  }

  // ---------------------------------------------------------------------
  // Money
  // ---------------------------------------------------------------------

  lemma CapShrinks(c: Setup, a: map<string, real>, r: map<string, Answer>, a': map<string, real>, r': map<string, Answer>)
    requires forall id :: id in a' ==> id in a && a[id] == a'[id]
    requires forall id :: id in r ==> id in r' && r[id] == r'[id]
    requires forall id :: id in a ==> 0.0 <= a[id]
    requires forall id :: id in r && r[id].cost.Some? ==> 0.0 <= r[id].cost.value
    ensures Sum(c.queue, CapMap(a', r')) <= Sum(c.queue, CapMap(a, r))
  {
    SumMonotone(c.queue, CapMap(a', r'), CapMap(a, r));
  }

  /** Settled, held and in-flight money together are the ledger of the written files. */
  lemma LedgerSplits(q: Queue, f: Files, flight: set<string>)
    requires f.results.Keys <= f.attempts.Keys
    requires forall id :: id in flight ==> id !in f.results
    ensures Sum(q, LedgerMap(f)) == Sum(q, CostMap(f)) + Sum(q, HoldMap(f, flight)) + Sum(q, FlightMap(f, flight))
    ensures Sum(q, LedgerMap(f)) == Sum(q, CapMap(f.attempts, f.results)) + Sum(q, OverrunMap(f))
    ensures 0.0 <= Sum(q, OverrunMap(f))
  {
    var settled := map id | id in f.attempts && id !in flight :: LedgerMap(f)[id];
    SumAdds(q, CostMap(f), HoldMap(f, flight), settled);
    SumAdds(q, settled, FlightMap(f, flight), LedgerMap(f));
    SumAdds(q, CapMap(f.attempts, f.results), OverrunMap(f), LedgerMap(f));
    SumZero(q);
    SumMonotone(q, map[], OverrunMap(f));
  }

  lemma StartedMoney(c: Setup, f: Files, remaining: real)
    requires f.results.Keys <= f.attempts.Keys
    ensures MoneyOk(c, f, {}, StartMoney(c, f, remaining))
  {
    assert FlightMap(f, {}) == map[];
    SumZero(c.queue);
    LedgerSplits(c.queue, f, {});
  }

  /** A new attempt adds its whole reservation to the in-flight money and to nothing else. */
  lemma AdmittedSums(q: Queue, f: Files, flight: set<string>, e: Entry)
    requires DistinctIds(q) && e.id in Ids(q) && e.id !in f.attempts && e.id !in f.results && flight <= f.attempts.Keys
    ensures CostMap(WithAttempt(f, e)) == CostMap(f)
    ensures HoldMap(WithAttempt(f, e), flight + {e.id}) == HoldMap(f, flight)
    ensures Sum(q, FlightMap(WithAttempt(f, e), flight + {e.id})) == Sum(q, FlightMap(f, flight)) + e.reserve
  {
    SumChange(q, FlightMap(f, flight), FlightMap(WithAttempt(f, e), flight + {e.id}), e.id);
  }

  lemma AdmittedCap(q: Queue, f: Files, r: map<string, Answer>, e: Entry)
    requires DistinctIds(q) && e.id in Ids(q) && e.id !in f.attempts && e.id !in r
    ensures Sum(q, CapMap(WithAttempt(f, e).attempts, r)) == Sum(q, CapMap(f.attempts, r)) + e.reserve
  {
    SumChange(q, CapMap(f.attempts, r), CapMap(WithAttempt(f, e).attempts, r), e.id);
  }

  lemma SameCounts(f: Files, flight: set<string>, f': Files, flight': set<string>)
    requires f'.results == f.results
    requires f.results.Keys <= f.attempts.Keys && f.attempts.Keys <= f'.attempts.Keys
    requires Unanswered(f') - flight' == Unanswered(f) - flight
    ensures CountsOf(f', flight') == CountsOf(f, flight)
  {
    forall st: Status ensures WithStatus(f', st) == WithStatus(f, st) {
    }
  }

  lemma FlightGrows(x: Flight, e: Entry)
    ensures x.(wave := x.wave + [e]).Ids() == x.Ids() + {e.id}
  {
    assert forall y :: y in x.wave + [e] <==> y in x.wave || y == e;
  }

  lemma AdmittedMoney(c: Setup, f: Files, flight: set<string>, m: Money, e: Entry)
    requires DistinctIds(c.queue) && e.id in Ids(c.queue) && e.id !in f.attempts && e.id !in f.results
    requires flight <= f.attempts.Keys && MoneyOk(c, f, flight, m)
    ensures MoneyOk(c, WithAttempt(f, e), flight + {e.id}, WithReserve(m, e))
  {
    AdmittedSums(c.queue, f, flight, e);
    AdmittedCap(c.queue, f, f.results, e);
  }

  lemma AdmittedCounts(f: Files, flight: set<string>, e: Entry)
    requires f.results.Keys <= f.attempts.Keys && e.id !in f.attempts
    ensures CountsOf(WithAttempt(f, e), flight + {e.id}) == CountsOf(f, flight)
  {
    SameCounts(f, flight, WithAttempt(f, e), flight + {e.id});
  }

  lemma FlightAttempted(c: Setup, s: State)
    requires Shape(c, s) && s.mem.Up?
    ensures s.mem.flight.Ids() <= s.working.attempts.Keys
    ensures forall id :: id in s.mem.flight.Ids() ==> id !in s.working.results
  {
  }

  lemma OutIsAttempted(c: Setup, s: State, id: string)
    requires Shape(c, s) && s.mem.Up? && id in s.mem.flight.active
    ensures id in s.working.attempts && id in Ids(c.queue) && id !in s.working.results
    ensures s.mem.flight.active[id] == s.working.attempts[id]
  {
  }

  lemma AdmitAccounts(c: Setup, s: State)
    requires ValidSetup(c) && Inv(c, s) && CanAdmit(c, s)
    ensures Accounts(c, Admitted(c, s))
  {
    var e := c.queue[s.mem.loop.cursor];
    assert e in c.queue && e.id in Ids(c.queue);
    FlightGrows(s.mem.flight, e);
    FlightAttempted(c, s);
    AdmittedMoney(c, s.working, s.mem.flight.Ids(), s.mem.money, e);
    AdmittedCounts(s.working, s.mem.flight.Ids(), e);
    AdmittedCap(c.queue, s.working, s.durable.results, e);
  }

  /** An answer moves its reservation out of flight: to the held money, or to settled cost and allowance. */
  lemma FinishedSums(q: Queue, f: Files, flight: set<string>, id: string, a: Answer)
    requires DistinctIds(q) && id in Ids(q) && id in f.attempts && id !in f.results && id in flight
    ensures Sum(q, FlightMap(WithAnswer(f, id, a), flight - {id})) == Sum(q, FlightMap(f, flight)) - f.attempts[id]
    ensures Sum(q, CostMap(WithAnswer(f, id, a))) == Sum(q, CostMap(f)) + (if a.cost.Some? then a.cost.value else 0.0)
    ensures Sum(q, HoldMap(WithAnswer(f, id, a), flight - {id}))
         == Sum(q, HoldMap(f, flight)) + (if a.cost.Some? then 0.0 else f.attempts[id])
  {
    var f' := WithAnswer(f, id, a);
    SumChange(q, FlightMap(f, flight), FlightMap(f', flight - {id}), id);
    SumChange(q, CostMap(f), CostMap(f'), id);
    SumChange(q, HoldMap(f, flight), HoldMap(f', flight - {id}), id);
  }

  lemma FinishedCap(q: Queue, f: Files, id: string, a: Answer)
    requires DistinctIds(q) && id in Ids(q) && id in f.attempts && id !in f.results
    ensures Sum(q, CapMap(f.attempts, WithAnswer(f, id, a).results))
         == Sum(q, CapMap(f.attempts, f.results))
            - (if a.cost.Some? then Max(0.0, f.attempts[id] - a.cost.value) else 0.0)
  {
    SumChange(q, CapMap(f.attempts, f.results), CapMap(f.attempts, WithAnswer(f, id, a).results), id);
  }

  lemma FinishedStatus(f: Files, id: string, a: Answer, st: Status)
    requires id in f.attempts && id !in f.results
    ensures |WithStatus(WithAnswer(f, id, a), st)| == |WithStatus(f, st)| + (if st == a.status then 1 else 0)
  {
    var before, after := WithStatus(f, st), WithStatus(WithAnswer(f, id, a), st);
    if st == a.status {
      assert after == before + {id};
    } else {
      assert after == before;
    }
  }

  lemma FinishedCounts(f: Files, flight: set<string>, id: string, a: Answer)
    requires id in f.attempts && id !in f.results && id in flight
    ensures CountsOf(WithAnswer(f, id, a), flight - {id}) == Counted(CountsOf(f, flight), a.status)
  {
    assert Unanswered(WithAnswer(f, id, a)) - (flight - {id}) == Unanswered(f) - flight;
    FinishedStatus(f, id, a, Complete);
    FinishedStatus(f, id, a, NeedsContext);
    FinishedStatus(f, id, a, Failed);
  }

  lemma FinishedMoney(c: Setup, f: Files, flight: set<string>, m: Money, id: string, a: Answer)
    requires DistinctIds(c.queue) && id in Ids(c.queue) && id in f.attempts && id !in f.results && id in flight
    requires MoneyOk(c, f, flight, m)
    ensures MoneyOk(c, WithAnswer(f, id, a), flight - {id}, SettledMoney(m, f.attempts[id], a.cost))
  {
    FinishedSums(c.queue, f, flight, id, a);
    FinishedCap(c.queue, f, id, a);
  }

  lemma FinishAccounts(c: Setup, s: State, id: string, a: Answer)
    requires ValidSetup(c) && Inv(c, s) && CanFinish(s, id, a)
    ensures Accounts(c, Finished(c, s, id, a))
  {
    var x := s.mem.flight;
    assert id in Ids(c.queue);
    assert x.(active := x.active - {id}).Ids() == x.Ids() - {id};
    FinishedMoney(c, s.working, x.Ids(), s.mem.money, id, a);
    FinishedCounts(s.working, x.Ids(), id, a);
  }

  lemma NonNegative(c: Setup, s: State)
    requires ValidSetup(c) && Shape(c, s)
    ensures forall id :: id in s.working.attempts ==> 0.0 <= s.working.attempts[id]
    ensures forall id :: HasCost(s.working, id) ==> 0.0 <= s.working.results[id].cost.value
  {
  }

  /** A commit or a crash only ever brings answers in, so the worst ledger cannot rise. */
  lemma VolumeAccounts(c: Setup, s: State, kept: Files)
    requires ValidSetup(c) && Inv(c, s) && Within(s.durable, kept) && Within(kept, s.working)
    ensures WorstCase(c, kept, kept) <= Max(c.budget, c.carried)
  {
    NonNegative(c, s);
    CapShrinks(c, s.working.attempts, s.durable.results, kept.attempts, kept.results);
  }

  lemma RefreshAccounts(c: Setup, s: State, balance: real)
    requires Inv(c, s) && s.mem.Up?
    ensures MoneyOk(c, s.working, s.mem.flight.Ids(), RefreshedMoney(c, s.mem.money, balance))
  {
    LedgerSplits(c.queue, s.working, s.mem.flight.Ids());
  }

  lemma ReportAccounts(c: Setup, f: Files, flight: set<string>, m: Money, report: Progress)
    requires MoneyOk(c, f, flight, m) && f.results.Keys <= f.attempts.Keys
    ensures MoneyOk(c, f.(progress := Some(report)), flight, m)
    ensures CountsOf(f.(progress := Some(report)), flight) == CountsOf(f, flight)
  {
    var f' := f.(progress := Some(report));
    assert CostMap(f') == CostMap(f);
    assert HoldMap(f', flight) == HoldMap(f, flight);
    SameCounts(f, flight, f', flight);
  }

  lemma StepAccounts(c: Setup, s: State, ev: Event)
    requires ValidSetup(c) && Inv(c, s) && Enabled(c, s, ev)
    ensures Accounts(c, Apply(c, s, ev))
  {
    match ev
    case Resume(remaining, _) =>
      StartedMoney(c, s.working, remaining);
      assert NoFlight.Ids() == {};
    case Admit => AdmitAccounts(c, s);
    case Dispatch(charge) => SentFlight(s.working, s.charges, s.mem.flight, charge);
    case Finish(id, a) => FinishAccounts(c, s, id, a);
    case Refresh(balance) => RefreshAccounts(c, s, balance);
    case WriteProgress => ReportAccounts(c, s.working, s.mem.flight.Ids(), s.mem.money, Report(c, s.mem));
    case CommitProgress => VolumeAccounts(c, s, s.working);
    case CommitWave => VolumeAccounts(c, s, s.working);
    case Crash(kept) => VolumeAccounts(c, s, kept);
    case _ =>
  }

  // ---------------------------------------------------------------------
  // Whole runs
  // ---------------------------------------------------------------------

  /** Settled cost, held reservations, carried holds and requests in flight; after a crash, what a start rebuilds. */
  ghost function Exposure(c: Setup, s: State): real {
    match s.mem
    case Down => c.carried + Sum(c.queue, CostMap(s.working)) + Sum(c.queue, HoldMap(s.working, {}))
    case Up(_, _, m, _, _) => c.carried + m.known + m.held + m.reservations
  }

  /** What the provider really charged, over every request ever sent. */
  ghost function TrueSpend(c: Setup, s: State): real {
    Sum(c.queue, s.charges)
  }

  ghost predicate WithinReservations(s: State) {
    forall id :: id in s.charges && id in s.working.attempts ==> s.charges[id] <= s.working.attempts[id]
  }

  /** Every state of every history satisfies the invariant. */
  lemma {:induction false} EveryRunKeeps(c: Setup, h: History, i: nat)
    requires ValidSetup(c) && Legal(c, h) && i < |h.states|
    ensures Inv(c, h.states[i])
  {
    if i == 0 {
      SumZero(c.queue);
      assert CapMap(map[], map[]) == map[];
    } else {
      EveryRunKeeps(c, h, i - 1);
      assert Steps(c, h.states[i - 1], h.events[i - 1], h.states[i]);
      StepShape(c, h.states[i - 1], h.events[i - 1]);
      StepAccounts(c, h.states[i - 1], h.events[i - 1]);
    }
  }

  lemma ExposureIsLedger(c: Setup, s: State)
    requires Inv(c, s)
    ensures Exposure(c, s) == c.carried + Sum(c.queue, LedgerMap(s.working))
  {
    if s.mem.Up? {
      FlightAttempted(c, s);
      LedgerSplits(c.queue, s.working, s.mem.flight.Ids());
    } else {
      assert FlightMap(s.working, {}) == map[];
      SumZero(c.queue);
      LedgerSplits(c.queue, s.working, {});
    }
  }

  lemma BoundOf(c: Setup, s: State)
    requires ValidSetup(c) && Inv(c, s)
    ensures Exposure(c, s) <= Max(c.budget, c.carried) + Sum(c.queue, OverrunMap(s.working))
  {
    ExposureIsLedger(c, s);
    LedgerSplits(c.queue, s.working, {});
    VolumeAccounts(c, s, s.working);
  }

  lemma NoOverrun(c: Setup, s: State)
    requires Inv(c, s) && WithinReservations(s)
    ensures Sum(c.queue, OverrunMap(s.working)) <= 0.0
  {
    forall e | e in c.queue
      ensures At(OverrunMap(s.working), e.id) <= 0.0
    {
      NothingOver(s, e.id);
    }
    SumNothing(c.queue, OverrunMap(s.working));
  }

  lemma NothingOver(s: State, id: string)
    requires WorldOk(s) && WithinReservations(s)
    ensures At(OverrunMap(s.working), id) <= 0.0
  {
    if HasCost(s.working, id) && id in s.working.attempts {
      assert s.charges[id] <= s.working.attempts[id];
    }
  }

  /**
   The spending bound, over every interleaving with any number of crashes and
   restarts: the exposure never passes the budget (or the carried holds, when
   those alone exceed it) by more than the provider's own excess over reservations.
   */
  lemma NeverOverspends(c: Setup, h: History, i: nat)
    requires ValidSetup(c) && Legal(c, h) && i < |h.states|
    ensures var s := h.states[i];
            && Exposure(c, s) <= Max(c.budget, c.carried) + Sum(c.queue, OverrunMap(s.working))
            && (WithinReservations(s) ==> Exposure(c, s) <= Max(c.budget, c.carried))
  {
    var s := h.states[i];
    EveryRunKeeps(c, h, i);
    BoundOf(c, s);
    if WithinReservations(s) {
      NoOverrun(c, s);
    }
  }

  lemma CoverOf(c: Setup, s: State)
    requires ValidSetup(c) && Inv(c, s) && WithinReservations(s)
    ensures TrueSpend(c, s) + c.carried <= Exposure(c, s)
  {
    ExposureIsLedger(c, s);
    NonNegative(c, s);
    SumMonotone(c.queue, s.charges, LedgerMap(s.working));
  }

  /** The exposure is never below what was really charged plus the carried holds, even with answers lost in a crash. */
  lemma ExposureCoversSpending(c: Setup, h: History, i: nat)
    requires ValidSetup(c) && Legal(c, h) && i < |h.states|
    requires WithinReservations(h.states[i])
    ensures TrueSpend(c, h.states[i]) + c.carried <= Exposure(c, h.states[i])
  {
    EveryRunKeeps(c, h, i);
    CoverOf(c, h.states[i]);
  }

  /** Whatever a crash at this point keeps, a restart still counts every real charge and stays within the bound. */
  lemma RestartNeverForgets(c: Setup, h: History, i: nat, kept: Files)
    requires ValidSetup(c) && Legal(c, h) && i < |h.states|
    requires CanSurvive(h.states[i], kept) && WithinReservations(h.states[i])
    ensures var s := h.states[i];
            TrueSpend(c, s) + c.carried
              <= c.carried + Sum(c.queue, CostMap(kept)) + Sum(c.queue, HoldMap(kept, {}))
              <= Max(c.budget, c.carried)
  {
    var s := h.states[i];
    EveryRunKeeps(c, h, i);
    var s' := Apply(c, s, Crash(kept));
    StepShape(c, s, Crash(kept));
    StepAccounts(c, s, Crash(kept));
    CoverOf(c, s');
    BoundOf(c, s');
    NoOverrun(c, s');
  }

  /** No request is sent twice, and each was sent only after its attempt was committed. */
  lemma NeverDispatchesTwice(c: Setup, h: History, i: nat)
    requires ValidSetup(c) && Legal(c, h) && i < |h.states|
    ensures var s := h.states[i];
            && Distinct(s.dispatched)
            && forall id :: id in s.dispatched ==> id in s.durable.attempts && id in Ids(c.queue)
  {
    EveryRunKeeps(c, h, i);
  }

  lemma CountFive(all: set<string>, a: set<string>, b: set<string>, d: set<string>, w: set<string>, x: set<string>)
    requires all == a + b + d + w + x
    requires a !! b !! d !! w !! x
    ensures |all| == |a| + |b| + |d| + |w| + |x|
  {
    assert |a + b + d + w + x| == |a + b + d + w| + |x|;
    assert |a + b + d + w| == |a + b + d| + |w|;
    assert |a + b + d| == |a + b| + |d|;
  }

  lemma CountsPartition(f: Files, active: set<string>)
    requires f.results.Keys <= f.attempts.Keys && active <= f.attempts.Keys
    requires forall id :: id in active ==> id !in f.results
    ensures CountsOf(f, active).Total() + |active| == |f.attempts.Keys|
  {
    var w := Unanswered(f) - active;
    var answered := WithStatus(f, Complete) + WithStatus(f, NeedsContext) + WithStatus(f, Failed);
    forall id | id in f.attempts ensures id in answered + w + active {
      if id in f.results {
        match f.results[id].status
        case Complete => assert id in WithStatus(f, Complete);
        case NeedsContext => assert id in WithStatus(f, NeedsContext);
        case Failed => assert id in WithStatus(f, Failed);
      }
    }
    assert f.attempts.Keys == answered + w + active;
    CountFive(f.attempts.Keys, WithStatus(f, Complete), WithStatus(f, NeedsContext), WithStatus(f, Failed), w, active);
  }

  ghost predicate Read(f: Files, id: string) {
    id in f.attempts && id in f.results && f.results[id].status != Failed
  }

  function Unstarted(c: Setup, f: Files): set<string> {
    Ids(c.queue) - f.attempts.Keys
  }

  lemma Remainder(all: set<string>, part: set<string>)
    requires part <= all
    ensures |all - part| == |all| - |part|
  {
    assert all == (all - part) + part;
    assert |(all - part) + part| == |all - part| + |part|;
  }

  lemma ReadCount(c: Setup, f: Files)
    requires DistinctIds(c.queue) && f.attempts.Keys <= Ids(c.queue)
    ensures |WithStatus(f, Complete)| + |WithStatus(f, NeedsContext)| == |c.queue|
       <==> forall e :: e in c.queue ==> Read(f, e.id)
  {
    DistinctCount(c.queue);
    var read := WithStatus(f, Complete) + WithStatus(f, NeedsContext);
    assert |read| == |WithStatus(f, Complete)| + |WithStatus(f, NeedsContext)|;
    if |read| == |c.queue| {
      FullSubset(read, Ids(c.queue));
      forall e | e in c.queue ensures Read(f, e.id) {
        assert e.id in Ids(c.queue);
      }
    }
    if forall e :: e in c.queue ==> Read(f, e.id) {
      forall id | id in Ids(c.queue) ensures id in read {
        assert Read(f, id);
        assert f.results[id].status == Complete || f.results[id].status == NeedsContext;
      }
      assert read == Ids(c.queue);
    }
  }

  lemma NotStartedOf(c: Setup, f: Files, m: Memory)
    requires DistinctIds(c.queue) && f.attempts.Keys <= Ids(c.queue) && m.Up?
    requires m.counts.Total() + |m.flight.active.Keys| == |f.attempts.Keys|
    ensures Report(c, m).notStarted == |Unstarted(c, f)|
  {
    DistinctCount(c.queue);
    Remainder(Ids(c.queue), f.attempts.Keys);
    assert |m.flight.active| == |m.flight.active.Keys|;
  }

  lemma AllReadOf(c: Setup, f: Files, m: Memory, flight: set<string>)
    requires DistinctIds(c.queue) && f.attempts.Keys <= Ids(c.queue) && m.Up? && m.counts == CountsOf(f, flight)
    ensures Report(c, m).allRead <==> forall e :: e in c.queue ==> Read(f, e.id)
  {
    ReadCount(c, f);
  }

  /** What a progress file must show: the money, counts and flags that the files and the requests still out add up to. */
  ghost predicate ShowsExactly(c: Setup, f: Files, active: set<string>, stop: Option<StopReason>,
                               exhausted: bool, p: Progress) {
    && p.reported == Sum(c.queue, CostMap(f))
    && p.unknown == Sum(c.queue, HoldMap(f, active))
    && p.active == Sum(c.queue, FlightMap(f, active))
    && p.carried == c.carried && p.totalUnknown == p.unknown + c.carried
    && p.counts.complete == |WithStatus(f, Complete)|
    && p.counts.needsContext == |WithStatus(f, NeedsContext)|
    && p.counts.failed == |WithStatus(f, Failed)|
    && p.counts.interrupted == |Unanswered(f) - active|
    && p.inFlight == |active|
    && p.notStarted == |Unstarted(c, f)|
    && (p.allRead <==> forall e :: e in c.queue ==> Read(f, e.id))
    && p.stop == stop
    && (p.queueExhausted <==> exhausted && active == {})
    && (p.queueExhausted ==> Unstarted(c, f) == {})
  }

  lemma ReportOf(c: Setup, s: State)
    requires ValidSetup(c) && Inv(c, s) && CanReport(s)
    ensures ShowsExactly(c, s.working, s.mem.flight.active.Keys, s.mem.loop.stop, s.mem.loop.exhausted, Report(c, s.mem))
  {
    var active := s.mem.flight.active.Keys;
    assert s.mem.flight.Ids() == active;
    FlightAttempted(c, s);
    CountsPartition(s.working, active);
    NotStartedOf(c, s.working, s.mem);
    AllReadOf(c, s.working, s.mem, active);
    ExhaustedOf(c, s);
  }

  lemma ExhaustedOf(c: Setup, s: State)
    requires Inv(c, s) && CanReport(s)
    ensures Report(c, s.mem).queueExhausted <==> s.mem.loop.exhausted && s.mem.flight.active.Keys == {}
    ensures s.mem.loop.exhausted ==> Unstarted(c, s.working) == {}
  {
    assert |s.mem.flight.active| == |s.mem.flight.active.Keys|;
  }

  /** A progress file does not count itself. */
  lemma SameShown(c: Setup, f: Files, g: Files, active: set<string>, stop: Option<StopReason>, exhausted: bool, p: Progress)
    requires ShowsExactly(c, f, active, stop, exhausted, p) && g.attempts == f.attempts && g.results == f.results
    ensures ShowsExactly(c, g, active, stop, exhausted, p)
  {
    SameMaps(f, g, active);
    SameStatuses(f, g);
    assert forall id :: Read(g, id) <==> Read(f, id);
  }

  lemma SameMaps(f: Files, g: Files, active: set<string>)
    requires g.attempts == f.attempts && g.results == f.results
    ensures CostMap(g) == CostMap(f) && HoldMap(g, active) == HoldMap(f, active) && FlightMap(g, active) == FlightMap(f, active)
  {
  }

  lemma SameStatuses(f: Files, g: Files)
    requires g.attempts == f.attempts && g.results == f.results
    ensures WithStatus(g, Complete) == WithStatus(f, Complete)
    ensures WithStatus(g, NeedsContext) == WithStatus(f, NeedsContext)
    ensures WithStatus(g, Failed) == WithStatus(f, Failed)
    ensures Unanswered(g) == Unanswered(f)
  {
  }

  /**
   Every progress file written shows exactly what the written files and the requests
   still out add up to: settled cost, unresolved holds and active reservations, the
   counts by status, how many jobs have no attempt, whether every job has a usable
   answer, whether the queue is exhausted with nothing out, and why the run stops.
   */
  lemma ReportsAreExact(c: Setup, h: History, i: nat)
    requires ValidSetup(c) && Legal(c, h) && i < |h.events| && h.events[i].WriteProgress?
    ensures h.states[i].mem.Up? && h.states[i + 1].working.progress.Some?
    ensures var s, after := h.states[i], h.states[i + 1];
            && after.working.attempts == s.working.attempts && after.working.results == s.working.results
            && ShowsExactly(c, after.working, s.mem.flight.active.Keys, s.mem.loop.stop, s.mem.loop.exhausted,
                            after.working.progress.value)
  {
    var s := h.states[i];
    EveryRunKeeps(c, h, i);
    assert Steps(c, s, h.events[i], h.states[i + 1]);
    WrittenOf(c, s);
  }

  lemma WrittenOf(c: Setup, s: State)
    requires ValidSetup(c) && Inv(c, s) && CanReport(s)
    ensures ShowsExactly(c, Reported(c, s).working, s.mem.flight.active.Keys, s.mem.loop.stop, s.mem.loop.exhausted,
                         Report(c, s.mem))
  {
    ReportOf(c, s);
    SameShown(c, s.working, Reported(c, s).working, s.mem.flight.active.Keys, s.mem.loop.stop, s.mem.loop.exhausted, Report(c, s.mem));
  }

  lemma FullSubset(a: set<string>, b: set<string>)
    requires a <= b && |a| == |b|
    ensures a == b
  {
    if a != b {
      var x :| x in b && x !in a;
      assert |b - {x}| == |b| - 1;
      SubsetFits(a, b - {x});
    }
  }

  /**
   A run that returns was stopped, or has attempted every job; either way nothing is
   left in flight, and its durable progress file shows exactly what it leaves.
   */
  lemma ReturnsOnlyWhenDone(c: Setup, h: History, i: nat)
    requires ValidSetup(c) && Legal(c, h) && i < |h.states| && CanReturn(c, h.states[i])
    ensures var s := h.states[i];
            && s.mem.flight.Ids() == {}
            && (s.mem.loop.stop.Some? || forall e :: e in c.queue ==> e.id in s.durable.attempts)
            && s.durable.progress.Some?
            && ShowsExactly(c, s.durable, {}, s.mem.loop.stop, s.mem.loop.exhausted, s.durable.progress.value)
  {
    EveryRunKeeps(c, h, i);
    ReportOf(c, h.states[i]);
    assert h.states[i].mem.flight.active.Keys == {};
    assert h.states[i].working == h.states[i].durable;
  }

  /** The invariant holds wherever the steps can lead. */
  lemma ReachedKeeps(c: Setup, s: State)
    requires ValidSetup(c) && Leads(c, Fresh, s)
    ensures Inv(c, s)
  {
    var h: History :| Stepwise(c, h) && h.states[0] == Fresh && h.Last() == s;
    EveryRunKeeps(c, h, |h.states| - 1);
  }
}
