/**
 The queue run itself: one process that reads the saved files back, then admits,
 sends, settles and reports in a loop. Its methods update the run's own fields in
 the order the program does; `Valid` says that everything done so far is one legal
 history of the step system, so what QueueSafety proves of every history holds at
 each point where this process might stop or be killed.
 */
module QueueRunner {
  import opened Wrappers
  import opened QueueSums
  import opened QueueLedger
  import opened QueueSafety

  /** What the world does during one turn of the loop. */
  datatype Turn = Turn(interrupted: bool, timeUp: bool, balanceDue: bool, balance: Option<real>, finished: seq<string>)

  /** The provider: what it charges for each job and what it answers. */
  datatype Provider = Provider(price: string -> real, reply: string -> Answer)

  ghost predicate Honest(p: Provider) {
    forall id :: 0.0 <= p.price(id) && p.reply(id).cost in {None, Some(p.price(id))}
  }

  ghost predicate Priced(p: Provider, charges: map<string, real>) {
    forall id :: id in charges ==> charges[id] == p.price(id)
  }

  lemma OutstandingCharged(c: Setup, s: State)
    requires ValidSetup(c) && Leads(c, Fresh, s) && s.mem.Up?
    ensures forall id :: id in s.mem.flight.active ==> id in s.charges
  {
    ReachedKeeps(c, s);
  }

  lemma CursorInQueue(c: Setup, s: State)
    requires ValidSetup(c) && Leads(c, Fresh, s) && s.mem.Up?
    ensures s.mem.loop.cursor <= |c.queue|
  {
    ReachedKeeps(c, s);
  }

  lemma NothingWaiting(c: Setup, s: State)
    requires ValidSetup(c) && Leads(c, Fresh, s) && s.mem.Up? && s.mem.loop.phase == Waiting
    ensures s.mem.flight.wave == []
  {
    ReachedKeeps(c, s);
  }

  lemma ReportHere(c: Setup, s: State)
    requires ValidSetup(c) && Leads(c, Fresh, s) && CanReport(s)
    ensures ShowsExactly(c, Reported(c, s).working, s.mem.flight.active.Keys, s.mem.loop.stop, s.mem.loop.exhausted,
                         Report(c, s.mem))
  {
    ReachedKeeps(c, s);
    WrittenOf(c, s);
  }

  // One lemma per event: where it leads is reached too.

  lemma Resumes(c: Setup, s: State, remaining: real, recentSaved: seq<ErrorKind>)
    requires Leads(c, Fresh, s) && CanResume(c, s, recentSaved)
    ensures Leads(c, Fresh, Resumed(c, s, remaining, recentSaved))
  {
    LeadsOn(c, Fresh, s, Resume(remaining, recentSaved), Resumed(c, s, remaining, recentSaved));
  }

  lemma Halts(c: Setup, s: State, reason: StopReason)
    requires Leads(c, Fresh, s) && BetweenWaves(s.mem) && reason in {Interrupted, TimeSliceComplete}
    ensures Leads(c, Fresh, Stopped(s, if s.mem.loop.stop.Some? then s.mem.loop.stop else Some(reason)))
  {
    LeadsOn(c, Fresh, s, Halt(reason), Stopped(s, if s.mem.loop.stop.Some? then s.mem.loop.stop else Some(reason)));
  }

  lemma Refreshes(c: Setup, s: State, balance: real)
    requires Leads(c, Fresh, s) && BetweenWaves(s.mem) && s.mem.loop.stop.None?
    ensures Leads(c, Fresh, s.(mem := s.mem.(money := RefreshedMoney(c, s.mem.money, balance))))
  {
    LeadsOn(c, Fresh, s, Refresh(balance), s.(mem := s.mem.(money := RefreshedMoney(c, s.mem.money, balance))));
  }

  lemma RefreshFails(c: Setup, s: State)
    requires Leads(c, Fresh, s) && BetweenWaves(s.mem) && s.mem.loop.stop.None?
    ensures Leads(c, Fresh, Stopped(s, Some(PreflightFailed)))
  {
    LeadsOn(c, Fresh, s, RefreshFailed, Stopped(s, Some(PreflightFailed)));
  }

  lemma Skips(c: Setup, s: State)
    requires Leads(c, Fresh, s) && NextStarted(c, s)
    ensures Leads(c, Fresh, s.(mem := s.mem.(loop := Passed(s.mem.loop))))
  {
    LeadsOn(c, Fresh, s, Skip, s.(mem := s.mem.(loop := Passed(s.mem.loop))));
  }

  lemma Exhausts(c: Setup, s: State)
    requires Leads(c, Fresh, s) && MayAdmit(c, s.mem) && s.mem.loop.cursor == |c.queue|
    ensures Leads(c, Fresh, s.(mem := s.mem.(loop := s.mem.loop.(exhausted := true))))
  {
    LeadsOn(c, Fresh, s, Exhaust, s.(mem := s.mem.(loop := s.mem.loop.(exhausted := true))));
  }

  lemma Admits(c: Setup, s: State)
    requires Leads(c, Fresh, s) && CanAdmit(c, s)
    ensures Leads(c, Fresh, Admitted(c, s))
  {
    LeadsOn(c, Fresh, s, Admit, Admitted(c, s));
  }

  lemma Refuses(c: Setup, s: State)
    requires Leads(c, Fresh, s) && NextUnstarted(c, s) && s.mem.money.allowance < c.queue[s.mem.loop.cursor].reserve
    ensures Leads(c, Fresh, s.(mem := s.mem.(loop := Passed(s.mem.loop).(stop := Some(BudgetLimit)))))
  {
    LeadsOn(c, Fresh, s, RefuseOverBudget, s.(mem := s.mem.(loop := Passed(s.mem.loop).(stop := Some(BudgetLimit)))));
  }

  lemma CommitsWave(c: Setup, s: State)
    requires Leads(c, Fresh, s) && s.mem.Up? && s.mem.loop.phase == Admitting && s.mem.flight.wave != []
    ensures Leads(c, Fresh, InPhase(s.(durable := s.working), Dispatching))
  {
    LeadsOn(c, Fresh, s, CommitWave, InPhase(s.(durable := s.working), Dispatching));
  }

  lemma Dispatches(c: Setup, s: State, charge: real)
    requires Leads(c, Fresh, s) && CanDispatch(s, charge)
    ensures Leads(c, Fresh, Dispatched(s, charge))
  {
    LeadsOn(c, Fresh, s, Dispatch(charge), Dispatched(s, charge));
  }

  lemma Awaits(c: Setup, s: State)
    requires Leads(c, Fresh, s) && s.mem.Up? && s.mem.loop.phase in {Admitting, Dispatching}
    requires s.mem.flight.wave == [] && s.mem.flight.active != map[]
    ensures Leads(c, Fresh, InPhase(s, Waiting))
  {
    LeadsOn(c, Fresh, s, Await, InPhase(s, Waiting));
  }

  lemma Finishes(c: Setup, s: State, id: string, a: Answer)
    requires Leads(c, Fresh, s) && CanFinish(s, id, a)
    ensures Leads(c, Fresh, Finished(c, s, id, a))
  {
    LeadsOn(c, Fresh, s, Finish(id, a), Finished(c, s, id, a));
  }

  lemma Reports(c: Setup, s: State)
    requires Leads(c, Fresh, s) && CanReport(s)
    ensures Leads(c, Fresh, Reported(c, s))
  {
    LeadsOn(c, Fresh, s, WriteProgress, Reported(c, s));
  }

  lemma CommitsProgress(c: Setup, s: State)
    requires Leads(c, Fresh, s) && s.mem.Up? && s.mem.loop.phase == Reporting
    ensures Leads(c, Fresh, InPhase(s.(durable := s.working), Admitting))
  {
    LeadsOn(c, Fresh, s, CommitProgress, InPhase(s.(durable := s.working), Admitting));
  }

  /** Written and committed, the progress file leads on and shows exactly what it must. */
  lemma Saves(c: Setup, s: State, t: State, report: Progress)
    requires ValidSetup(c) && Leads(c, Fresh, s) && CanReport(s) && report == Report(c, s.mem)
    requires t == InPhase(Reported(c, s).(durable := Reported(c, s).working), Admitting)
    ensures Leads(c, Fresh, t) && BetweenWaves(t.mem) && t.working == t.durable && t.durable.progress == Some(report)
    ensures report == Report(c, t.mem)
    ensures ShowsExactly(c, t.durable, t.mem.flight.active.Keys, t.mem.loop.stop, t.mem.loop.exhausted, report)
  {
    ReportHere(c, s);
    SaveLeads(c, s);
    SavedAs(c, s, t, report);
  }

  lemma SaveLeads(c: Setup, s: State)
    requires Leads(c, Fresh, s) && CanReport(s)
    ensures Leads(c, Fresh, InPhase(Reported(c, s).(durable := Reported(c, s).working), Admitting))
  {
    Reports(c, s);
    CommitsProgress(c, Reported(c, s));
  }

  lemma SavedAs(c: Setup, s: State, t: State, report: Progress)
    requires CanReport(s) && report == Report(c, s.mem)
    requires t == InPhase(Reported(c, s).(durable := Reported(c, s).working), Admitting)
    ensures BetweenWaves(t.mem) && t.working == t.durable && t.durable.progress == Some(report)
    ensures report == Report(c, t.mem)
    ensures t.durable == Reported(c, s).working && t.mem.flight == s.mem.flight
    ensures t.mem.loop.stop == s.mem.loop.stop && t.mem.loop.exhausted == s.mem.loop.exhausted
  {
  }

  class QueueRun {
    const c: Setup
    var working: Files
    var durable: Files
    var known: real
    var held: real
    var allowance: real
    var reservations: real
    var active: map<string, real>
    var wave: seq<Entry>
    var cursor: nat
    var exhausted: bool
    var stop: Option<StopReason>
    var counts: Counts
    var recent: seq<ErrorKind>

    ghost var phase: Phase
    ghost var dispatched: seq<string>
    ghost var charges: map<string, real>

    ghost function View(): State
      reads this
    {
      State(working, durable,
            Up(Loop(phase, cursor, exhausted, stop), Flight(active, wave),
               Money(known, held, allowance, reservations), counts, recent),
            dispatched, charges)
    }

    /** The fields are where some run of the queue, from an empty volume, can stand. */
    ghost predicate Valid()
      reads this
    {
      ValidSetup(c) && Leads(c, Fresh, View())
    }

    constructor (c: Setup, saved: Files, known: real, held: real, remaining: real, counts: Counts,
                 recentSaved: seq<ErrorKind>, ghost past: State)
      requires past.working == saved && CanResume(c, past, recentSaved)
      requires known == Sum(c.queue, CostMap(saved)) && held == Sum(c.queue, HoldMap(saved, {}))
      requires counts == CountsOf(saved, {})
      ensures this.c == c && View() == Resumed(c, past, remaining, recentSaved)
      ensures allowance + held + c.carried <= remaining
      ensures allowance + known + held + c.carried <= c.budget
      ensures allowance + held + c.carried == remaining || allowance + known + held + c.carried == c.budget
    {
      this.c := c;
      working := saved;
      durable := saved;
      this.known := known;
      this.held := held;
      allowance := Min(c.budget - known - held - c.carried, remaining - held - c.carried);
      reservations := 0.0;
      active := map[];
      wave := [];
      cursor := 0;
      exhausted := false;
      stop := None;
      this.counts := counts;
      recent := recentSaved;
      phase := Admitting;
      dispatched := past.dispatched;
      charges := past.charges;
    }

    // One method per event: the fields it updates and nothing else.

    method Admit()
      requires CanAdmit(c, View())
      modifies this
      ensures View() == Admitted(c, old(View()))
    {
      var job := c.queue[cursor];
      working := working.(attempts := working.attempts[job.id := job.reserve]);
      cursor := cursor + 1;
      allowance := allowance - job.reserve;
      reservations := reservations + job.reserve;
      wave := wave + [job];
    }

    method CommitWave()
      requires phase == Admitting && wave != []
      modifies this`durable, this`phase
      ensures View() == InPhase(old(View()).(durable := old(working)), Dispatching)
    {
      durable := working;
      phase := Dispatching;
    }

    /** Send the first request of the wave; `charge` is what the provider will make of it. */
    method Dispatch(ghost charge: real)
      requires CanDispatch(View(), charge)
      modifies this
      ensures View() == Dispatched(old(View()), charge)
    {
      var job := wave[0];
      active := active[job.id := job.reserve];
      wave := wave[1..];
      dispatched := dispatched + [job.id];
      charges := charges[job.id := charge];
    }

    /** Take one reservation out of flight: to the held money, or to settled cost and allowance. */
    method Pay(reserve: real, cost: Option<real>) returns (overrun: bool)
      modifies this`known, this`held, this`allowance, this`reservations
      ensures Money(known, held, allowance, reservations)
           == SettledMoney(old(Money(known, held, allowance, reservations)), reserve, cost)
      ensures overrun <==> cost.Some? && cost.value > reserve
    {
      overrun := false;
      reservations := reservations - reserve;
      match cost {
        case None => held := held + reserve;
        case Some(paid) =>
          known := known + paid;
          allowance := allowance + Max(0.0, reserve - paid);
          overrun := paid > reserve;
      }
    }

    /** Save one answer and settle its reservation. */
    method Settle(id: string, answer: Answer)
      requires CanFinish(View(), id, answer)
      modifies this
      ensures View() == Finished(c, old(View()), id, answer)
      ensures stop == if !c.qualityTrial && multiset(recent)[ValidationError] >= 8 then Some(ValidationBurst)
                      else if multiset(recent)[ProviderError] >= 4 then Some(ProviderBurst)
                      else if answer.cost.Some? && old(active[id]) < answer.cost.value then Some(CostExceedsReservation)
                      else old(stop)
    {
      var reserve := active[id];
      active := active - {id};
      working := working.(results := working.results[id := answer]);
      var overrun := Pay(reserve, answer.cost);
      counts := Counted(counts, answer.status);
      recent := Pushed(recent, answer.error);
      stop := StopAfter(c, stop, recent, overrun);
    }

    method Refresh(balance: real)
      modifies this`allowance
      ensures View() == old(View()).(mem := old(View()).mem.(money := RefreshedMoney(c, old(View()).mem.money, balance)))
    {
      allowance := Min(c.budget - known - held - c.carried - reservations, balance - held - c.carried - reservations);
    }

    method WriteProgress() returns (report: Progress)
      requires CanReport(View())
      modifies this`working, this`phase
      ensures report == Report(c, old(View()).mem)
      ensures View() == Reported(c, old(View()))
    {
      report := Progress(counts, |active|, |c.queue| - counts.Total() - |active|,
                         known, held, c.carried, held + c.carried, reservations, stop, exhausted && |active| == 0,
                         counts.complete + counts.needsContext == |c.queue|);
      working := working.(progress := Some(report));
      phase := Reporting;
    }

    method CommitProgress()
      requires phase == Reporting
      modifies this`durable, this`phase
      ensures View() == InPhase(old(View()).(durable := old(working)), Admitting)
    {
      durable := working;
      phase := Admitting;
    }

    // The loops.

    /** The admission loop: write an attempt for each next job that the allowance still covers. */
    method AdmitWave()
      requires Valid() && BetweenWaves(View().mem)
      modifies this
      ensures Valid() && phase == Admitting && active == old(active)
      ensures charges == old(charges)
      ensures wave == [] && active == map[] ==> exhausted || stop.Some?
    {
      CursorInQueue(c, View());
      while stop.None? && !exhausted && |active| + |wave| < c.concurrency
        invariant Valid() && phase == Admitting && active == old(active) && charges == old(charges)
        invariant cursor <= |c.queue|
        decreases |c.queue| - cursor, !exhausted
      {
        ghost var before := View();
        if cursor == |c.queue| {
          exhausted := true;
          Exhausts(c, before);
        } else if c.queue[cursor].id in working.attempts {
          cursor := cursor + 1;
          Skips(c, before);
        } else if c.queue[cursor].reserve > allowance {
          cursor := cursor + 1;
          stop := Some(BudgetLimit);
          Refuses(c, before);
        } else {
          Admit();
          Admits(c, before);
        }
      }
      if wave == [] && active == map[] {
        assert |active| == 0;
      }
    }

    /** Make the wave's attempts durable, then send its requests. */
    method SendWave(p: Provider)
      requires Valid() && phase == Admitting && wave != [] && Honest(p) && Priced(p, charges)
      modifies this
      ensures Valid() && phase == Dispatching && wave == [] && active != map[] && Priced(p, charges)
    {
      ghost var start := View();
      CommitWave();
      CommitsWave(c, start);
      while wave != []
        invariant Valid() && phase == Dispatching && Priced(p, charges)
        invariant wave != [] || active != map[]
        decreases |wave|
      {
        ghost var before := View();
        ghost var id := wave[0].id;
        Dispatch(p.price(id));
        Dispatches(c, before, p.price(id));
        assert id in active;
      }
    }

    /** Take in the answers that arrived, in the order they arrived. */
    method SettleAll(p: Provider, finished: seq<string>)
      requires Valid() && phase == Waiting && Honest(p) && Priced(p, charges)
      modifies this
      ensures Valid() && phase == Waiting && wave == [] && Priced(p, charges)
      ensures active == old(active) - set id | id in finished
    {
      NothingWaiting(c, View());
      var i := 0;
      while i < |finished|
        invariant 0 <= i <= |finished|
        invariant Valid() && phase == Waiting && wave == [] && Priced(p, charges)
        invariant active == old(active) - set id | id in finished[..i]
      {
        var id := finished[i];
        ghost var before := View();
        if id in active {
          OutstandingCharged(c, before);
          Settle(id, p.reply(id));
          Finishes(c, before, id, p.reply(id));
        }
        assert finished[..i + 1] == finished[..i] + [id];
        i := i + 1;
      }
      assert finished[..|finished|] == finished;
    }

    /** Write the progress file and commit the volume. */
    method SaveProgress() returns (report: Progress)
      requires Valid() && CanReport(View())
      modifies this`working, this`durable, this`phase
      ensures Valid() && BetweenWaves(View().mem) && working == durable && durable.progress == Some(report)
      ensures report == Report(c, View().mem)
      ensures ShowsExactly(c, durable, active.Keys, stop, exhausted, report)
    {
      ghost var before := View();
      report := WriteProgress();
      CommitProgress();
      Saves(c, before, View(), report);
    }

    /**
     The whole loop. `turns` is what the world does while the process lives; when
     it runs out first, the process was killed there and there is no report.
     */
    method Run(p: Provider, turns: seq<Turn>) returns (report: Option<Progress>)
      requires Valid() && BetweenWaves(View().mem) && Honest(p) && Priced(p, charges)
      modifies this
      ensures Valid()
      ensures Exposure(c, View()) <= Max(c.budget, c.carried) + Sum(c.queue, OverrunMap(working))
      ensures report.Some? ==> CanReturn(c, View()) && durable.progress == report
      ensures report.Some? ==> stop.Some? || forall e :: e in c.queue ==> e.id in durable.attempts
    {
      var done := false;
      var i := 0;
      while i < |turns| && (active != map[] || !exhausted) && !done
        invariant 0 <= i <= |turns|
        invariant Valid() && BetweenWaves(View().mem) && Priced(p, charges)
        invariant done ==> active == map[] && (exhausted || stop.Some?)
      {
        done := TakeTurn(p, turns[i]);
        i := i + 1;
      }
      report := None;
      if active == map[] && (exhausted || stop.Some?) {
        var last := SaveProgress();
        report := Some(last);
        DoneHere(c, View());
      }
      BoundHere(c, View());
    }

    /** One pass of the loop; `done` when it has nothing left in flight and must not admit more. */
    method TakeTurn(p: Provider, turn: Turn) returns (done: bool)
      requires Valid() && BetweenWaves(View().mem) && Honest(p) && Priced(p, charges)
      modifies this
      ensures Valid() && BetweenWaves(View().mem) && Priced(p, charges)
      ensures done ==> active == map[] && (exhausted || stop.Some?)
    {
      LookUp(turn);
      AdmitWave();
      if wave != [] {
        SendWave(p);
      }
      if active == map[] {
        return true;
      }
      ghost var sent := View();
      phase := Waiting;
      Awaits(c, sent);
      SettleAll(p, turn.finished);
      var _ := SaveProgress();
      return stop.Some? && active == map[];
    }

    /** Stop requests and the balance check, before anything is admitted. */
    method LookUp(turn: Turn)
      requires Valid() && BetweenWaves(View().mem)
      modifies this`stop, this`allowance
      ensures Valid() && BetweenWaves(View().mem)
      ensures stop == if old(stop).Some? then old(stop)
                      else if turn.interrupted then Some(Interrupted)
                      else if turn.timeUp then Some(TimeSliceComplete)
                      else if turn.balanceDue && turn.balance.None? then Some(PreflightFailed)
                      else None
      ensures stop.Some? || !turn.balanceDue ==> allowance == old(allowance)
      ensures stop.None? && turn.balanceDue ==>
                var withheld := held + c.carried + reservations;
                && allowance + withheld <= turn.balance.value && allowance + known + withheld <= c.budget
                && (allowance + withheld == turn.balance.value || allowance + known + withheld == c.budget)
    {
      if turn.interrupted {
        ghost var before := View();
        stop := if stop.Some? then stop else Some(Interrupted);
        Halts(c, before, Interrupted);
      }
      if turn.timeUp {
        ghost var before := View();
        stop := if stop.Some? then stop else Some(TimeSliceComplete);
        Halts(c, before, TimeSliceComplete);
      }
      if stop.None? && turn.balanceDue {
        ghost var before := View();
        if turn.balance.Some? {
          Refresh(turn.balance.value);
          Refreshes(c, before, turn.balance.value);
        } else {
          stop := Some(PreflightFailed);
          RefreshFails(c, before);
        }
      }
    }
  }

  lemma DoneHere(c: Setup, s: State)
    requires ValidSetup(c) && Leads(c, Fresh, s) && CanReturn(c, s)
    ensures s.mem.loop.stop.Some? || forall e :: e in c.queue ==> e.id in s.durable.attempts
  {
    ReachedKeeps(c, s);
  }

  lemma BoundHere(c: Setup, s: State)
    requires ValidSetup(c) && Leads(c, Fresh, s)
    ensures Exposure(c, s) <= Max(c.budget, c.carried) + Sum(c.queue, OverrunMap(s.working))
  {
    ReachedKeeps(c, s);
    BoundOf(c, s);
  }
}
