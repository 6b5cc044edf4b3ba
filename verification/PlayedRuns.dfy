/**
 Playing a run: from an empty volume, any queue whose reservations fit its budget
 can be sent one job at a time, each charged any price up to its reservation, and
 brought to its end by legal steps of the ledger.
 */
module PlayedRuns {
  import opened Wrappers
  import opened QueueSums
  import opened QueueLedger
  import opened QueueSafety
  import opened QueueRunner
  import opened BudgetChain

  function FirstIds(q: Queue, n: nat): set<string>
    requires n <= |q|
  {
    set i | 0 <= i < n :: q[i].id
  }

  /** Prices no job could be refused for. */
  ghost predicate Affordable(q: Queue, price: map<string, real>) {
    forall e :: e in q ==> e.id in price && 0.0 <= price[e.id] <= e.reserve
  }

  /** Every answer is a clean one, charged its price. */
  ghost predicate CleanAnswers(results: map<string, Answer>, price: map<string, real>) {
    forall id :: id in results ==> id in price && results[id] == Answer(Complete, Some(price[id]), NoError)
  }

  ghost predicate NoErrors(recent: seq<ErrorKind>) {
    |recent| <= 16 && forall i :: 0 <= i < |recent| ==> recent[i] == NoError
  }

  /** After `n` jobs, one at a time and each charged its price: the ledger is between waves and could admit more. */
  ghost predicate Underway(c: Setup, s: State, n: nat, price: map<string, real>, room: real)
    requires n <= |c.queue|
  {
    && BetweenWaves(s.mem) && s.mem.flight.active == map[]
    && s.mem.loop == Loop(Admitting, n, false, None)
    && s.working == s.durable
    && s.working.attempts.Keys == FirstIds(c.queue, n)
    && s.working.results.Keys == FirstIds(c.queue, n)
    && CleanAnswers(s.working.results, price)
    && room <= s.mem.money.allowance
    && NoErrors(s.mem.recent)
  }

  lemma PushedClean(recent: seq<ErrorKind>)
    requires NoErrors(recent)
    ensures NoErrors(Pushed(recent, NoError))
    ensures CountKind(Pushed(recent, NoError), ProviderError) == 0
    ensures CountKind(Pushed(recent, NoError), ValidationError) == 0
  {
    var more := Pushed(recent, NoError);
    assert ProviderError !in more && ValidationError !in more;
  }

  lemma FirstIdsStep(q: Queue, n: nat)
    requires DistinctIds(q) && n < |q|
    ensures FirstIds(q, n + 1) == FirstIds(q, n) + {q[n].id}
    ensures q[n].id !in FirstIds(q, n)
  {
  }

  /** The next job admitted, its attempt committed, and its request sent. */
  lemma SendOne(c: Setup, s: State, n: nat, price: map<string, real>, room: real) returns (t: State)
    requires ValidSetup(c) && n < |c.queue| && Affordable(c.queue, price) && Leads(c, Fresh, s) && Underway(c, s, n, price, room)
    requires c.queue[n].reserve <= room
    ensures Leads(c, Fresh, t)
    ensures var e := c.queue[n];
            && e.id in price
            && t == State(WithAttempt(s.working, e), WithAttempt(s.working, e),
                          s.mem.(loop := Loop(Waiting, n + 1, false, None), flight := Flight(map[e.id := e.reserve], []),
                                 money := WithReserve(s.mem.money, e)),
                          s.dispatched + [e.id], s.charges[e.id := price[e.id]])
  {
    assert c.queue[n] in c.queue;
    var charge := price[c.queue[n].id];
    FirstIdsStep(c.queue, n);
    Admits(c, s);
    var s1 := Admitted(c, s);
    CommitsWave(c, s1);
    var s2 := InPhase(s1.(durable := s1.working), Dispatching);
    Dispatches(c, s2, charge);
    var s3 := Dispatched(s2, charge);
    Awaits(c, s3);
    t := InPhase(s3, Waiting);
  }

  /** The only answer outstanding, a clean one, settled, reported and committed. */
  lemma SettleOne(c: Setup, s: State, id: string, charge: real) returns (t: State)
    requires ValidSetup(c) && Leads(c, Fresh, s) && s.mem.Up? && s.mem.loop.phase == Waiting && s.mem.loop.stop.None?
    requires s.mem.flight.active.Keys == {id} && s.mem.flight.wave == []
    requires id in s.charges && s.charges[id] == charge && 0.0 <= charge <= s.mem.flight.active[id]
    requires NoErrors(s.mem.recent)
    ensures Leads(c, Fresh, t) && t.working == t.durable && t.mem.Up?
    ensures t.durable.attempts == s.working.attempts
    ensures t.durable.results == s.working.results[id := Answer(Complete, Some(charge), NoError)]
    ensures t.mem.loop == s.mem.loop.(phase := Admitting) && t.mem.flight == NoFlight
    ensures s.mem.money.allowance <= t.mem.money.allowance
    ensures t.mem.recent == Pushed(s.mem.recent, NoError)
  {
    var a := Answer(Complete, Some(charge), NoError);
    Finishes(c, s, id, a);
    var s5 := Finished(c, s, id, a);
    PushedClean(s.mem.recent);
    assert s5.mem.flight == NoFlight;
    Reports(c, s5);
    var s6 := Reported(c, s5);
    CommitsProgress(c, s6);
    t := InPhase(s6.(durable := s6.working), Admitting);
  }

  lemma PlayOne(c: Setup, s: State, n: nat, price: map<string, real>, room: real) returns (t: State)
    requires ValidSetup(c) && n < |c.queue| && Leads(c, Fresh, s) && Underway(c, s, n, price, room)
    requires Affordable(c.queue, price) && c.queue[n].reserve <= room
    ensures Leads(c, Fresh, t) && Underway(c, t, n + 1, price, room - c.queue[n].reserve)
  {
    var id := c.queue[n].id;
    assert c.queue[n] in c.queue;
    var sent := SendOne(c, s, n, price, room);
    t := SettleOne(c, sent, id, price[id]);
    PushedClean(s.mem.recent);
    FirstIdsStep(c.queue, n);
  }

  lemma PlayNone(c: Setup, price: map<string, real>) returns (s: State)
    requires ValidSetup(c)
    ensures Leads(c, Fresh, s) && Underway(c, s, 0, price, c.budget - c.carried)
  {
    LeadsNowhere(c, Fresh);
    assert CostMap(NoFiles) == map[] && HoldMap(NoFiles, {}) == map[];
    SumZero(c.queue);
    Resumes(c, Fresh, c.budget, []);
    s := Resumed(c, Fresh, c.budget, []);
  }

  lemma {:induction false} PlayAll(c: Setup, n: nat, price: map<string, real>) returns (s: State)
    requires ValidSetup(c) && n <= |c.queue| && Affordable(c.queue, price)
    requires Reserved(c.queue, |c.queue|) + c.carried <= c.budget
    ensures Leads(c, Fresh, s)
    ensures Underway(c, s, n, price, c.budget - c.carried - Reserved(c.queue, n))
  {
    if n == 0 {
      s := PlayNone(c, price);
    } else {
      var before := PlayAll(c, n - 1, price);
      assert c.queue[n - 1] in c.queue;
      ReservedGrows(c.queue, n, |c.queue|);
      var room := c.budget - c.carried - Reserved(c.queue, n - 1);
      s := PlayOne(c, before, n - 1, price, room);
      assert c.budget - c.carried - Reserved(c.queue, n) == room - c.queue[n - 1].reserve;
    }
  }

  lemma {:induction false} ReservedGrows(q: Queue, n: nat, k: nat)
    requires n <= k <= |q| && forall e :: e in q ==> 0.0 <= e.reserve
    ensures Reserved(q, n) <= Reserved(q, k)
  {
    if n < k {
      ReservedGrows(q, n, k - 1);
      assert q[k - 1] in q;
    }
  }

  lemma FirstIdsAll(q: Queue)
    ensures FirstIds(q, |q|) == Ids(q)
  {
    forall e | e in q ensures e.id in FirstIds(q, |q|) {
      var i :| 0 <= i < |q| && q[i] == e;
    }
  }

  /** The progress file as a finished run leaves it. */
  lemma LastReport(c: Setup, s: State) returns (t: State)
    requires ValidSetup(c) && Leads(c, Fresh, s) && BetweenWaves(s.mem) && s.mem.flight.active == map[]
    requires s.working == s.durable && s.working.attempts.Keys == Ids(c.queue)
    ensures Leads(c, Fresh, t) && t.working.attempts == s.working.attempts && t.working.results == s.working.results
    ensures RunsOut(t.working)
  {
    ReportHere(c, s);
    assert Unstarted(c, s.working) == {};
    Reports(c, s);
    var written := Reported(c, s);
    CommitsProgress(c, written);
    t := InPhase(written.(durable := written.working), Admitting);
  }

  // ---------------------------------------------------------------------
  // What a finished run's files show
  // ---------------------------------------------------------------------

  /** The progress file of a run with nothing left to do. */
  ghost predicate RunsOut(f: Files) {
    f.progress.Some? && f.progress.value.inFlight == 0 && f.progress.value.notStarted == 0
  }

  /** Every job answered and charged its price. */
  ghost predicate Spent(q: Queue, f: Files, price: map<string, real>) {
    && f.attempts.Keys == Ids(q) && f.results.Keys == Ids(q)
    && CleanAnswers(f.results, price)
    && (forall e :: e in q ==> e.id in f.attempts && f.attempts[e.id] == e.reserve)
    && RunsOut(f)
  }

  lemma PlayedOut(c: Setup, price: map<string, real>) returns (t: State)
    requires ValidSetup(c) && Affordable(c.queue, price) && Reserved(c.queue, |c.queue|) + c.carried <= c.budget
    ensures Leads(c, Fresh, t) && Spent(c.queue, t.working, price)
  {
    var s := PlayAll(c, |c.queue|, price);
    FirstIdsAll(c.queue);
    t := LastReport(c, s);
    ReachedKeeps(c, t);
  }

  /** Its charges are the prices, and it holds nothing. */
  lemma SpentTotals(r: Run, price: map<string, real>)
    requires DistinctIds(r.queue) && Affordable(r.queue, price) && Spent(r.queue, r.files, price)
    ensures Known(r) == Sum(r.queue, price) && Unknown(r) == 0.0
    ensures Readable(r) && AllAttempted(r)
  {
    forall e | e in r.queue
      ensures At(CostMap(r.files), e.id) == At(price, e.id)
    {
      assert e.id in Ids(r.queue);
    }
    SumMonotone(r.queue, CostMap(r.files), price);
    SumMonotone(r.queue, price, CostMap(r.files));
    assert HoldMap(r.files, {}) == map[];
    SumZero(r.queue);
    forall id | id in r.files.attempts
      ensures HasCost(r.files, id) ==> r.files.results[id].cost.value <= r.files.attempts[id]
    {
      var e :| e in r.queue && e.id == id;
    }
    assert Unanswered(r.files) == {};
  }

  /** Any prices up to the reservations: the run can be played so, and its files show it. */
  lemma PlaysAt(config: Config, q: Queue, price: map<string, real>) returns (r: Run)
    requires Startable(Run(config, q, NoFiles)) && Affordable(q, price) && Reserved(q, |q|) + config.carried <= config.budget
    ensures r.config == config && r.queue == q && Played(r) && Spent(q, r.files, price)
    ensures Known(r) == Sum(q, price) && Unknown(r) == 0.0 && Readable(r) && AllAttempted(r)
  {
    var c := SetupOf(Run(config, q, NoFiles));
    var t := PlayedOut(c, price);
    r := Run(config, q, t.working);
    PlayedBy(r, t);
    SpentTotals(r, price);
  }

  lemma PlayedBy(r: Run, t: State)
    requires Startable(r) && Leads(SetupOf(r), Fresh, t) && t.working == r.files
    ensures Played(r)
  {
  }
}
