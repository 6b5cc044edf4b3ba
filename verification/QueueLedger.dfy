/**
 The durable spending ledger as a step system: what one queue run does to its
 volume and to its own memory, one event at a time, with a crash possible
 between any two events.

 Two copies of the saved files are kept apart: `working` is what the process
 has written, `durable` is what the last commit made permanent. A crash keeps
 everything durable and any subset of the writes made since.
 */
module QueueLedger {
  import opened Collections
  import opened Wrappers
  import opened QueueSums

  datatype Status = Complete | NeedsContext | Failed

  datatype ErrorKind = NoError | ProviderError | ValidationError | InterruptedError

  datatype StopReason =
    | Interrupted
    | TimeSliceComplete
    | PreflightFailed
    | BudgetLimit
    | CostExceedsReservation
    | ProviderBurst
    | ValidationBurst

  /** One saved answer; `cost` is absent when the provider reported none. */
  datatype Answer = Answer(status: Status, cost: Option<real>, error: ErrorKind)

  datatype Counts = Counts(complete: nat, needsContext: nat, failed: nat, interrupted: nat) {
    function Total(): nat {
      complete + needsContext + failed + interrupted
    }
  }

  datatype Progress = Progress(
    counts: Counts, inFlight: nat, notStarted: int,
    reported: real, unknown: real, carried: real, totalUnknown: real, active: real,
    stop: Option<StopReason>, queueExhausted: bool, allRead: bool)

  /** `attempts` holds each attempt's reservation. */
  datatype Files = Files(attempts: map<string, real>, results: map<string, Answer>, progress: Option<Progress>)

  datatype Setup = Setup(queue: Queue, budget: real, carried: real, concurrency: nat, qualityTrial: bool)

  datatype Phase = Admitting | Dispatching | Waiting | Reporting

  /** Where the loop stands; `cursor` is the position of the job iterator. */
  datatype Loop = Loop(phase: Phase, cursor: nat, exhausted: bool, stop: Option<StopReason>)

  /** Requests admitted but not sent yet (`wave`) and requests out at the provider (`active`). */
  datatype Flight = Flight(active: map<string, real>, wave: seq<Entry>) {
    function Ids(): set<string> {
      active.Keys + set e | e in wave :: e.id
    }
  }

  datatype Money = Money(known: real, held: real, allowance: real, reservations: real)

  datatype Memory = Down | Up(loop: Loop, flight: Flight, money: Money, counts: Counts, recent: seq<ErrorKind>)

  /** `dispatched` logs every request sent; `charges` is what the provider really charged for it. */
  datatype State = State(working: Files, durable: Files, mem: Memory, dispatched: seq<string>, charges: map<string, real>)

  datatype Event =
    | Resume(remaining: real, recentSaved: seq<ErrorKind>)
    | Halt(reason: StopReason)
    | Refresh(balance: real)
    | RefreshFailed
    | Skip
    | Exhaust
    | Admit
    | RefuseOverBudget
    | CommitWave
    | Dispatch(charge: real)
    | Await
    | Finish(id: string, answer: Answer)
    | WriteProgress
    | CommitProgress
    | Return
    | Crash(kept: Files)

  const NoFiles := Files(map[], map[], None)

  const Fresh := State(NoFiles, NoFiles, Down, [], map[])

  function Min(a: real, b: real): real {
    if a <= b then a else b
  }

  function Max(a: real, b: real): real {
    if a <= b then b else a
  }

  ghost predicate ValidSetup(c: Setup) {
    && DistinctIds(c.queue)
    && 0.0 < c.budget
    && 0.0 <= c.carried
    && 1 <= c.concurrency
    && forall e :: e in c.queue ==> 0.0 <= e.reserve
  }

  // ---------------------------------------------------------------------
  // What a start reads back from the saved files
  // ---------------------------------------------------------------------

  predicate HasCost(f: Files, id: string) {
    id in f.results && f.results[id].cost.Some?
  }

  /** Settled cost of each job whose saved answer reports one. */
  function CostMap(f: Files): map<string, real> {
    map id | id in f.results && f.results[id].cost.Some? :: f.results[id].cost.value
  }

  /** Reservation of each attempt outside `flight` with no reported cost. */
  function HoldMap(f: Files, flight: set<string>): map<string, real> {
    map id | id in f.attempts && id !in flight && !HasCost(f, id) :: f.attempts[id]
  }

  function FlightMap(f: Files, flight: set<string>): map<string, real> {
    map id | id in f.attempts && id in flight :: f.attempts[id]
  }

  /** What the ledger charges each attempt: its reported cost, else its reservation. */
  function LedgerMap(f: Files): map<string, real> {
    map id | id in f.attempts :: if HasCost(f, id) then f.results[id].cost.value else f.attempts[id]
  }

  /** The ledger without the part of any reported cost above its reservation. */
  function CapMap(attempts: map<string, real>, results: map<string, Answer>): map<string, real> {
    map id | id in attempts ::
      if id in results && results[id].cost.Some? then Min(results[id].cost.value, attempts[id]) else attempts[id]
  }

  function OverrunMap(f: Files): map<string, real> {
    map id | id in f.attempts && HasCost(f, id) :: Max(0.0, f.results[id].cost.value - f.attempts[id])
  }

  function WithStatus(f: Files, status: Status): set<string> {
    set id | id in f.attempts && id in f.results && f.results[id].status == status
  }

  /** Attempts with no saved answer: what a start counts as interrupted. */
  function Unanswered(f: Files): set<string> {
    set id | id in f.attempts && id !in f.results
  }

  function CountsOf(f: Files, flight: set<string>): Counts {
    Counts(|WithStatus(f, Complete)|, |WithStatus(f, NeedsContext)|, |WithStatus(f, Failed)|,
           |Unanswered(f) - flight|)
  }

  predicate AnyOverrun(f: Files) {
    exists id :: id in f.attempts && HasCost(f, id) && f.attempts[id] < f.results[id].cost.value
  }

  function CountKind(recent: seq<ErrorKind>, kind: ErrorKind): nat {
    multiset(recent)[kind]
  }

  predicate BurstStop(c: Setup, recent: seq<ErrorKind>) {
    CountKind(recent, ProviderError) >= 4 || (!c.qualityTrial && CountKind(recent, ValidationError) >= 8)
  }

  predicate NeedsReconciliation(f: Files) {
    && f.progress.Some?
    && f.progress.value.stop in {Some(ProviderBurst), Some(ValidationBurst), Some(CostExceedsReservation)}
  }

  function StartMoney(c: Setup, f: Files, remaining: real): Money {
    var known := Sum(c.queue, CostMap(f));
    var held := Sum(c.queue, HoldMap(f, {}));
    Money(known, held, Min(c.budget - known - held - c.carried, remaining - held - c.carried), 0.0)
  }

  const StartLoop := Loop(Admitting, 0, false, None)

  const NoFlight := Flight(map[], [])

  function Started(c: Setup, f: Files, remaining: real, recentSaved: seq<ErrorKind>): Memory {
    Up(StartLoop, NoFlight, StartMoney(c, f, remaining), CountsOf(f, {}), recentSaved)
  }

  // ---------------------------------------------------------------------
  // The events
  // ---------------------------------------------------------------------

  function Pushed(recent: seq<ErrorKind>, kind: ErrorKind): seq<ErrorKind> {
    if |recent| < 16 then recent + [kind] else recent[|recent| - 15..] + [kind]
  }

  function Counted(k: Counts, status: Status): Counts {
    match status
    case Complete => k.(complete := k.complete + 1)
    case NeedsContext => k.(needsContext := k.needsContext + 1)
    case Failed => k.(failed := k.failed + 1)
  }

  /** The stop reason after one settled answer; later tests overwrite earlier ones. */
  function StopAfter(c: Setup, stop: Option<StopReason>, recent: seq<ErrorKind>, overrun: bool): Option<StopReason> {
    var s1 := if overrun then Some(CostExceedsReservation) else stop;
    var s2 := if CountKind(recent, ProviderError) >= 4 then Some(ProviderBurst) else s1;
    if !c.qualityTrial && CountKind(recent, ValidationError) >= 8 then Some(ValidationBurst) else s2
  }

  function SettledMoney(m: Money, reserve: real, cost: Option<real>): Money {
    match cost
    case None => m.(held := m.held + reserve, reservations := m.reservations - reserve)
    case Some(paid) =>
      Money(m.known + paid, m.held, m.allowance + Max(0.0, reserve - paid), m.reservations - reserve)
  }

  function Settled(c: Setup, m: Memory, id: string, a: Answer): Memory
    requires m.Up? && id in m.flight.active
  {
    var reserve := m.flight.active[id];
    var recent := Pushed(m.recent, a.error);
    Up(m.loop.(stop := StopAfter(c, m.loop.stop, recent, a.cost.Some? && a.cost.value > reserve)),
       m.flight.(active := m.flight.active - {id}),
       SettledMoney(m.money, reserve, a.cost), Counted(m.counts, a.status), recent)
  }

  function Report(c: Setup, m: Memory): Progress
    requires m.Up?
  {
    var inFlight := |m.flight.active|;
    Progress(m.counts, inFlight, |c.queue| - m.counts.Total() - inFlight,
             m.money.known, m.money.held, c.carried, m.money.held + c.carried, m.money.reservations, m.loop.stop,
             m.loop.exhausted && inFlight == 0,
             m.counts.complete + m.counts.needsContext == |c.queue|)
  }

  ghost predicate Within(a: Files, b: Files) {
    && (forall id :: id in a.attempts ==> id in b.attempts && a.attempts[id] == b.attempts[id])
    && (forall id :: id in a.results ==> id in b.results && a.results[id] == b.results[id])
  }

  /** The admission loop may look at the next job. */
  predicate MayAdmit(c: Setup, m: Memory) {
    && m.Up? && m.loop.phase == Admitting && m.loop.stop.None? && !m.loop.exhausted
    && |m.flight.active| + |m.flight.wave| < c.concurrency
  }

  /** Between waves: nothing written since the last commit. */
  predicate BetweenWaves(m: Memory) {
    m.Up? && m.loop.phase == Admitting && m.flight.wave == []
  }

  predicate CanResume(c: Setup, s: State, recentSaved: seq<ErrorKind>) {
    s.mem.Down? && !AnyOverrun(s.working) && !BurstStop(c, recentSaved) && !NeedsReconciliation(s.working)
  }

  function Resumed(c: Setup, s: State, remaining: real, recentSaved: seq<ErrorKind>): State {
    s.(durable := s.working, mem := Started(c, s.working, remaining, recentSaved))
  }

  function RefreshedMoney(c: Setup, m: Money, balance: real): Money {
    m.(allowance := Min(c.budget - m.known - m.held - c.carried - m.reservations,
                        balance - m.held - c.carried - m.reservations))
  }

  predicate NextStarted(c: Setup, s: State) {
    MayAdmit(c, s.mem) && s.mem.loop.cursor < |c.queue| && c.queue[s.mem.loop.cursor].id in s.working.attempts
  }

  predicate NextUnstarted(c: Setup, s: State) {
    MayAdmit(c, s.mem) && s.mem.loop.cursor < |c.queue| && c.queue[s.mem.loop.cursor].id !in s.working.attempts
  }

  predicate CanAdmit(c: Setup, s: State) {
    NextUnstarted(c, s) && c.queue[s.mem.loop.cursor].reserve <= s.mem.money.allowance
  }

  function WithAttempt(f: Files, e: Entry): Files {
    f.(attempts := f.attempts[e.id := e.reserve])
  }

  function WithReserve(m: Money, e: Entry): Money {
    m.(allowance := m.allowance - e.reserve, reservations := m.reservations + e.reserve)
  }

  function Passed(l: Loop): Loop {
    l.(cursor := l.cursor + 1)
  }

  function Admitted(c: Setup, s: State): State
    requires CanAdmit(c, s)
  {
    var e := c.queue[s.mem.loop.cursor];
    s.(working := WithAttempt(s.working, e),
       mem := s.mem.(loop := Passed(s.mem.loop), flight := s.mem.flight.(wave := s.mem.flight.wave + [e]),
                     money := WithReserve(s.mem.money, e)))
  }

  predicate CanDispatch(s: State, charge: real) {
    s.mem.Up? && s.mem.loop.phase == Dispatching && s.mem.flight.wave != [] && 0.0 <= charge
  }

  function Sent(f: Flight): Flight
    requires f.wave != []
  {
    Flight(f.active[f.wave[0].id := f.wave[0].reserve], f.wave[1..])
  }

  function Dispatched(s: State, charge: real): State
    requires CanDispatch(s, charge)
  {
    var id := s.mem.flight.wave[0].id;
    s.(mem := s.mem.(flight := Sent(s.mem.flight)),
       dispatched := s.dispatched + [id], charges := s.charges[id := charge])
  }

  predicate CanFinish(s: State, id: string, a: Answer) {
    && s.mem.Up? && s.mem.loop.phase == Waiting && id in s.mem.flight.active
    && (a.cost.Some? ==> id in s.charges && a.cost.value == s.charges[id])
  }

  function WithAnswer(f: Files, id: string, a: Answer): Files {
    f.(results := f.results[id := a])
  }

  function Finished(c: Setup, s: State, id: string, a: Answer): State
    requires CanFinish(s, id, a)
  {
    s.(working := WithAnswer(s.working, id, a), mem := Settled(c, s.mem, id, a))
  }

  predicate CanReport(s: State) {
    s.mem.Up? && s.mem.loop.phase in {Admitting, Waiting} && s.mem.flight.wave == []
  }

  function InPhase(s: State, phase: Phase): State
    requires s.mem.Up?
  {
    s.(mem := s.mem.(loop := s.mem.loop.(phase := phase)))
  }

  function Stopped(s: State, stop: Option<StopReason>): State
    requires s.mem.Up?
  {
    s.(mem := s.mem.(loop := s.mem.loop.(stop := stop)))
  }

  function Reported(c: Setup, s: State): State
    requires CanReport(s)
  {
    InPhase(s.(working := s.working.(progress := Some(Report(c, s.mem)))), Reporting)
  }

  predicate CanReturn(c: Setup, s: State) {
    && BetweenWaves(s.mem) && s.mem.flight.active == map[] && (s.mem.loop.exhausted || s.mem.loop.stop.Some?)
    && s.durable.progress == Some(Report(c, s.mem))
  }

  ghost predicate CanSurvive(s: State, kept: Files) {
    && s.mem.Up?
    && Within(s.durable, kept)
    && Within(kept, s.working)
    && kept.progress in {s.durable.progress, s.working.progress}
  }

  ghost predicate Enabled(c: Setup, s: State, ev: Event) {
    match ev
    case Resume(_, recentSaved) => CanResume(c, s, recentSaved)
    case Halt(reason) => BetweenWaves(s.mem) && reason in {Interrupted, TimeSliceComplete}
    case Refresh(_) => BetweenWaves(s.mem) && s.mem.loop.stop.None?
    case RefreshFailed => BetweenWaves(s.mem) && s.mem.loop.stop.None?
    case Skip => NextStarted(c, s)
    case Exhaust => MayAdmit(c, s.mem) && s.mem.loop.cursor == |c.queue|
    case Admit => CanAdmit(c, s)
    case RefuseOverBudget => NextUnstarted(c, s) && s.mem.money.allowance < c.queue[s.mem.loop.cursor].reserve
    case CommitWave => s.mem.Up? && s.mem.loop.phase == Admitting && s.mem.flight.wave != []
    case Dispatch(charge) => CanDispatch(s, charge)
    case Await =>
      s.mem.Up? && s.mem.loop.phase in {Admitting, Dispatching} && s.mem.flight.wave == [] && s.mem.flight.active != map[]
    case Finish(id, a) => CanFinish(s, id, a)
    case WriteProgress => CanReport(s)
    case CommitProgress => s.mem.Up? && s.mem.loop.phase == Reporting
    case Return => CanReturn(c, s)
    case Crash(kept) => CanSurvive(s, kept)
  }

  ghost function Apply(c: Setup, s: State, ev: Event): State
    requires Enabled(c, s, ev)
  {
    match ev
    case Resume(remaining, recentSaved) => Resumed(c, s, remaining, recentSaved)
    case Halt(reason) => Stopped(s, if s.mem.loop.stop.Some? then s.mem.loop.stop else Some(reason))
    case Refresh(balance) => s.(mem := s.mem.(money := RefreshedMoney(c, s.mem.money, balance)))
    case RefreshFailed => Stopped(s, Some(PreflightFailed))
    case Skip => s.(mem := s.mem.(loop := Passed(s.mem.loop)))
    case Exhaust => s.(mem := s.mem.(loop := s.mem.loop.(exhausted := true)))
    case Admit => Admitted(c, s)
    case RefuseOverBudget => s.(mem := s.mem.(loop := Passed(s.mem.loop).(stop := Some(BudgetLimit))))
    case CommitWave => InPhase(s.(durable := s.working), Dispatching)
    case Dispatch(charge) => Dispatched(s, charge)
    case Await => InPhase(s, Waiting)
    case Finish(id, a) => Finished(c, s, id, a)
    case WriteProgress => Reported(c, s)
    case CommitProgress => InPhase(s.(durable := s.working), Admitting)
    case Return => s.(mem := Down)
    case Crash(kept) => s.(working := kept, durable := kept, mem := Down)
  }

  /** One event, enabled and carried out. */
  ghost predicate Steps(c: Setup, s: State, ev: Event, t: State) {
    Enabled(c, s, ev) && t == Apply(c, s, ev)
  }

  /** A history: the states passed through, one more than the events between them. */
  datatype History = History(states: seq<State>, events: seq<Event>) {
    function Last(): State
      requires states != []
    {
      states[|states| - 1]
    }
  }

  /** Every event was enabled when its turn came and led to the next state. */
  ghost predicate Stepwise(c: Setup, h: History) {
    && |h.states| == |h.events| + 1
    && forall i {:trigger h.events[i]} :: 0 <= i < |h.events| ==>
         Steps(c, h.states[i], h.events[i], h.states[i + 1])
  }

  /** A history of the run's whole life, from an empty volume. */
  ghost predicate Legal(c: Setup, h: History) {
    Stepwise(c, h) && h.states[0] == Fresh
  }

  /** Some sequence of steps takes `s` to `t`. */
  ghost predicate Leads(c: Setup, s: State, t: State) {
    exists h: History :: Stepwise(c, h) && h.states[0] == s && h.Last() == t
  }

  lemma LeadsNowhere(c: Setup, s: State)
    ensures Leads(c, s, s)
  {
    var h := History([s], []);
    assert Stepwise(c, h) && h.states[0] == s && h.Last() == s;
  }

  lemma LeadsOn(c: Setup, s: State, t: State, ev: Event, u: State)
    requires Leads(c, s, t) && Steps(c, t, ev, u)
    ensures Leads(c, s, u)
  {
    var h: History :| Stepwise(c, h) && h.states[0] == s && h.Last() == t;
    var more := History(h.states + [u], h.events + [ev]);
    forall i | 0 <= i < |more.events| ensures Steps(c, more.states[i], more.events[i], more.states[i + 1]) {
      if i < |h.events| {
        assert more.events[i] == h.events[i];
        assert Steps(c, h.states[i], h.events[i], h.states[i + 1]);
      }
    }
    assert Stepwise(c, more) && more.states[0] == s && more.Last() == u;
  }

  // ---------------------------------------------------------------------
  // What every step keeps
  // ---------------------------------------------------------------------

  ghost predicate FilesOk(c: Setup, f: Files) {
    && f.attempts.Keys <= Ids(c.queue)
    && f.results.Keys <= f.attempts.Keys
    && (forall e :: e in c.queue && e.id in f.attempts ==> f.attempts[e.id] == e.reserve)
  }

  /** Every request sent has its committed attempt, was sent once, and every saved cost is its real charge. */
  ghost predicate WorldOk(s: State) {
    && Distinct(s.dispatched)
    && (forall id :: id in s.charges <==> id in s.dispatched)
    && s.charges.Keys <= s.durable.attempts.Keys
    && (forall id :: id in s.charges ==> 0.0 <= s.charges[id])
    && (forall id :: HasCost(s.working, id) ==> id in s.charges && s.working.results[id].cost.value == s.charges[id])
  }

  ghost predicate FlightOk(f: Files, charges: map<string, real>, x: Flight) {
    && (forall id :: id in x.active ==>
          id in charges && id in f.attempts && x.active[id] == f.attempts[id] && id !in f.results)
    && (forall e :: e in x.wave ==>
          e.id !in charges && e.id in f.attempts && e.reserve == f.attempts[e.id] && e.id !in f.results)
    && DistinctIds(x.wave)
  }

  ghost predicate PhaseOk(c: Setup, working: Files, durable: Files, l: Loop, x: Flight) {
    && (l.phase == Admitting || l.phase == Dispatching ==> working.results == durable.results)
    && (l.phase != Admitting ==> working.attempts == durable.attempts)
    && (l.phase == Admitting && x.wave == [] ==> working == durable)
    && (l.phase == Waiting || l.phase == Reporting ==> x.wave == [])
    && l.cursor <= |c.queue|
    && (l.stop.None? ==> forall i :: 0 <= i < l.cursor ==> c.queue[i].id in working.attempts)
    && (l.exhausted ==> forall e :: e in c.queue ==> e.id in working.attempts)
  }

  /** The volume and the loop agree with each other. */
  ghost predicate Shape(c: Setup, s: State) {
    && FilesOk(c, s.working)
    && FilesOk(c, s.durable)
    && Within(s.durable, s.working)
    && WorldOk(s)
    && (s.mem.Down? ==> s.working == s.durable)
    && (s.mem.Up? ==> FlightOk(s.working, s.charges, s.mem.flight)
                      && PhaseOk(c, s.working, s.durable, s.mem.loop, s.mem.flight))
  }

  /** The running totals are exactly what the written files and the requests in flight add up to. */
  ghost predicate MoneyOk(c: Setup, f: Files, flight: set<string>, m: Money) {
    && m.known == Sum(c.queue, CostMap(f))
    && m.held == Sum(c.queue, HoldMap(f, flight))
    && m.reservations == Sum(c.queue, FlightMap(f, flight))
    && m.allowance <= c.budget - c.carried - Sum(c.queue, CapMap(f.attempts, f.results))
  }

  /** The worst ledger any crash could leave: every attempt written, only committed answers settled. */
  ghost function WorstCase(c: Setup, working: Files, durable: Files): real {
    c.carried + Sum(c.queue, CapMap(working.attempts, durable.results))
  }

  ghost predicate Accounts(c: Setup, s: State) {
    && WorstCase(c, s.working, s.durable) <= Max(c.budget, c.carried)
    && (s.mem.Up? ==> MoneyOk(c, s.working, s.mem.flight.Ids(), s.mem.money)
                      && s.mem.counts == CountsOf(s.working, s.mem.flight.Ids()))
  }

  ghost predicate Inv(c: Setup, s: State) {
    Shape(c, s) && Accounts(c, s)
  }
}
