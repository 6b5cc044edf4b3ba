/**
 What a run may admit: bounded by the balance it last saw and by its budget, read off
 the files alone, without the allowance the loop keeps.
 */
module Allowances {
  import opened Wrappers
  import opened QueueSums
  import opened QueueLedger
  import opened QueueSafety

  /** Event `j` reads the provider's balance. */
  ghost predicate SeesBalance(h: History, j: nat, balance: real)
    requires j < |h.events|
  {
    match h.events[j]
    case Resume(remaining, _) => balance == remaining
    case Refresh(seen) => balance == seen
    case _ => false
  }

  /** Event `j` is the last before `i` to read the balance. */
  ghost predicate LastSeen(h: History, j: nat, i: nat, balance: real) {
    && j < i <= |h.events| && SeesBalance(h, j, balance)
    && forall k :: j < k < i ==> !h.events[k].Resume? && !h.events[k].Refresh?
  }

  ghost function Out(s: State): set<string> {
    if s.mem.Up? then s.mem.flight.active.Keys else {}
  }

  /** Unresolved holds of this run and of earlier ones, and the reservations of requests still out. */
  ghost function Withheld(c: Setup, s: State): real {
    Sum(c.queue, HoldMap(s.working, Out(s))) + c.carried + Sum(c.queue, FlightMap(s.working, Out(s)))
  }

  /** What the balance leaves: settled charges are out of it already. */
  ghost function BalanceLeft(c: Setup, s: State, balance: real): real {
    balance - Withheld(c, s)
  }

  ghost function BudgetLeft(c: Setup, s: State): real {
    c.budget - Sum(c.queue, CostMap(s.working)) - Withheld(c, s)
  }

  /** What each settled attempt gave back of its reservation. */
  function RefundMap(f: Files): map<string, real> {
    map id | id in f.attempts && HasCost(f, id) :: Max(0.0, f.attempts[id] - f.results[id].cost.value)
  }

  /** What was reserved between the two, less what was given back. */
  ghost function NetReserved(q: Queue, before: Files, after: Files): real {
    (Sum(q, after.attempts) - Sum(q, before.attempts)) - (Sum(q, RefundMap(after)) - Sum(q, RefundMap(before)))
  }

  // ---------------------------------------------------------------------
  // The allowance kept by the loop
  // ---------------------------------------------------------------------

  /** The allowance right after a balance was read. */
  lemma SeenAllowance(c: Setup, h: History, j: nat, balance: real)
    requires ValidSetup(c) && Legal(c, h) && j < |h.events| && SeesBalance(h, j, balance)
    ensures h.states[j + 1].mem.Up?
    ensures h.states[j + 1].mem.money.allowance == Min(BudgetLeft(c, h.states[j]), BalanceLeft(c, h.states[j], balance))
    ensures h.states[j + 1].working == h.states[j].working
  {
    var s := h.states[j];
    assert Steps(c, s, h.events[j], h.states[j + 1]);
    EveryRunKeeps(c, h, j);
    if s.mem.Down? {
      assert FlightMap(s.working, {}) == map[];
      SumZero(c.queue);
    } else {
      assert s.mem.flight.Ids() == Out(s);
    }
  }

  lemma AdmittedNet(q: Queue, f: Files, e: Entry)
    requires DistinctIds(q) && e.id in Ids(q) && e.id !in f.attempts && e.id !in f.results
    ensures NetReserved(q, f, WithAttempt(f, e)) == e.reserve
  {
    SumChange(q, f.attempts, WithAttempt(f, e).attempts, e.id);
    assert RefundMap(WithAttempt(f, e)) == RefundMap(f);
  }

  lemma FinishedNet(q: Queue, f: Files, id: string, a: Answer)
    requires DistinctIds(q) && id in Ids(q) && id in f.attempts && id !in f.results
    ensures NetReserved(q, f, WithAnswer(f, id, a)) == if a.cost.Some? then -Max(0.0, f.attempts[id] - a.cost.value) else 0.0
  {
    SumChange(q, RefundMap(f), RefundMap(WithAnswer(f, id, a)), id);
  }

  lemma SameNet(q: Queue, f: Files, g: Files)
    requires g.attempts == f.attempts && g.results == f.results
    ensures NetReserved(q, f, g) == 0.0
  {
    assert RefundMap(g) == RefundMap(f);
  }

  lemma AdmitMoves(c: Setup, s: State)
    requires ValidSetup(c) && Inv(c, s) && CanAdmit(c, s)
    ensures var t := Admitted(c, s);
            && t.mem.money.allowance == s.mem.money.allowance - NetReserved(c.queue, s.working, t.working)
            && 0.0 <= t.mem.money.allowance
  {
    var e := c.queue[s.mem.loop.cursor];
    assert e in c.queue && e.id in Ids(c.queue);
    assert e.id !in s.working.results;
    AdmittedNet(c.queue, s.working, e);
  }

  lemma FinishMoves(c: Setup, s: State, id: string, a: Answer)
    requires ValidSetup(c) && Shape(c, s) && CanFinish(s, id, a)
    ensures var t := Finished(c, s, id, a);
            && t.mem.money.allowance == s.mem.money.allowance - NetReserved(c.queue, s.working, t.working)
            && t.working.attempts == s.working.attempts && s.mem.money.allowance <= t.mem.money.allowance
  {
    OutIsAttempted(c, s, id);
    FinishedNet(c.queue, s.working, id, a);
    SettledAllowance(s.mem.money, s.working.attempts[id], a.cost);
  }

  lemma SettledAllowance(m: Money, reserve: real, cost: Option<real>)
    ensures SettledMoney(m, reserve, cost).allowance
         == m.allowance + (if cost.Some? then Max(0.0, reserve - cost.value) else 0.0)
  {
  }

  /** Steps that neither reserve nor settle leave the allowance alone. */
  lemma OthersMove(c: Setup, s: State, ev: Event)
    requires Enabled(c, s, ev) && !ev.Resume? && !ev.Refresh? && !ev.Admit? && !ev.Finish? && Apply(c, s, ev).mem.Up?
    ensures s.mem.Up? && Apply(c, s, ev).mem.money.allowance == s.mem.money.allowance
    ensures Apply(c, s, ev).working.attempts == s.working.attempts && Apply(c, s, ev).working.results == s.working.results
  {
  }

  /** Between two readings of the balance every step moves the allowance by what it reserves or gives back. */
  lemma StepMoves(c: Setup, s: State, ev: Event, t: State)
    requires ValidSetup(c) && Inv(c, s) && Steps(c, s, ev, t) && !ev.Resume? && !ev.Refresh? && t.mem.Up?
    ensures s.mem.Up?
    ensures t.mem.money.allowance == s.mem.money.allowance - NetReserved(c.queue, s.working, t.working)
    ensures 0.0 <= t.mem.money.allowance
         || (t.working.attempts == s.working.attempts && s.mem.money.allowance <= t.mem.money.allowance)
  {
    if ev.Admit? {
      AdmitMoves(c, s);
    } else if ev.Finish? {
      FinishMoves(c, s, ev.id, ev.answer);
    } else {
      OthersMove(c, s, ev);
      SameNet(c.queue, s.working, t.working);
    }
  }

  lemma NetAdds(q: Queue, f: Files, g: Files, k: Files)
    ensures NetReserved(q, f, k) == NetReserved(q, f, g) + NetReserved(q, g, k)
  {
  }

  lemma SeenBefore(h: History, j: nat, i: nat, balance: real)
    requires LastSeen(h, j, i, balance) && j + 1 < i
    ensures LastSeen(h, j, i - 1, balance) && !h.events[i - 1].Resume? && !h.events[i - 1].Refresh?
  {
  }

  lemma EventMoves(c: Setup, h: History, i: nat)
    requires ValidSetup(c) && Legal(c, h) && i < |h.events| && h.states[i + 1].mem.Up?
    requires !h.events[i].Resume? && !h.events[i].Refresh?
    ensures h.states[i].mem.Up?
    ensures h.states[i + 1].mem.money.allowance
         == h.states[i].mem.money.allowance - NetReserved(c.queue, h.states[i].working, h.states[i + 1].working)
    ensures 0.0 <= h.states[i + 1].mem.money.allowance
         || (h.states[i + 1].working.attempts == h.states[i].working.attempts
             && h.states[i].mem.money.allowance <= h.states[i + 1].mem.money.allowance)
  {
    assert Steps(c, h.states[i], h.events[i], h.states[i + 1]);
    EveryRunKeeps(c, h, i);
    StepMoves(c, h.states[i], h.events[i], h.states[i + 1]);
  }

  /** The allowance is what the last balance left, less what was reserved since; it is not negative once something was. */
  lemma {:induction false} AllowanceIsLeft(c: Setup, h: History, j: nat, i: nat, balance: real)
    requires ValidSetup(c) && Legal(c, h) && LastSeen(h, j, i, balance) && h.states[i].mem.Up?
    ensures h.states[i].mem.money.allowance
         == Min(BudgetLeft(c, h.states[j]), BalanceLeft(c, h.states[j], balance))
            - NetReserved(c.queue, h.states[j].working, h.states[i].working)
    ensures h.states[i].working.attempts != h.states[j].working.attempts ==> 0.0 <= h.states[i].mem.money.allowance
  {
    if i == j + 1 {
      SeenAllowance(c, h, j, balance);
      SameNet(c.queue, h.states[j].working, h.states[i].working);
    } else {
      SeenBefore(h, j, i, balance);
      EventMoves(c, h, i - 1);
      AllowanceIsLeft(c, h, j, i - 1, balance);
      NetAdds(c.queue, h.states[j].working, h.states[i - 1].working, h.states[i].working);
    }
  }

  // ---------------------------------------------------------------------
  // What may be admitted
  // ---------------------------------------------------------------------

  /** Step `k` leaves a run up only if it read the balance or found the run up. */
  ghost predicate SeenOrUp(h: History, k: nat)
    requires k < |h.events| && |h.states| == |h.events| + 1
  {
    h.states[k + 1].mem.Up? ==> h.events[k].Resume? || h.events[k].Refresh? || h.states[k].mem.Up?
  }

  lemma StepSeesOrFinds(c: Setup, h: History, k: nat)
    requires Legal(c, h) && k < |h.events|
    ensures SeenOrUp(h, k)
  {
    assert Steps(c, h.states[k], h.events[k], h.states[k + 1]);
  }

  lemma {:induction false} LastReading(h: History, i: nat) returns (j: nat, balance: real)
    requires |h.states| == |h.events| + 1 && i <= |h.events| && h.states[0].mem.Down? && h.states[i].mem.Up?
    requires forall k: nat :: k < i ==> SeenOrUp(h, k)
    ensures LastSeen(h, j, i, balance)
  {
    assert SeenOrUp(h, i - 1);
    if h.events[i - 1].Resume? {
      j, balance := i - 1, h.events[i - 1].remaining;
    } else if h.events[i - 1].Refresh? {
      j, balance := i - 1, h.events[i - 1].balance;
    } else {
      j, balance := LastReading(h, i - 1);
      SeenOn(h, j, i - 1, balance);
    }
  }

  /** A run that is up has read the balance. */
  lemma HasSeen(c: Setup, h: History, i: nat) returns (j: nat, balance: real)
    requires Legal(c, h) && i <= |h.events| && h.states[i].mem.Up?
    ensures LastSeen(h, j, i, balance)
  {
    forall k: nat | k < i
      ensures SeenOrUp(h, k)
    {
      StepSeesOrFinds(c, h, k);
    }
    j, balance := LastReading(h, i);
  }

  lemma SeenOn(h: History, j: nat, i: nat, balance: real)
    requires LastSeen(h, j, i, balance) && i < |h.events| && !h.events[i].Resume? && !h.events[i].Refresh?
    ensures LastSeen(h, j, i + 1, balance)
  {
  }

  /**
   Whatever a run reserves after it read the balance, less what answers gave back,
   fits in that balance less all holds and reservations at that time, and in the
   budget less these and the settled cost.
   */
  lemma AdmissionFits(c: Setup, h: History, j: nat, i: nat, balance: real)
    requires ValidSetup(c) && Legal(c, h) && LastSeen(h, j, i, balance) && h.states[i].mem.Up?
    requires h.states[i].working.attempts != h.states[j].working.attempts
    ensures NetReserved(c.queue, h.states[j].working, h.states[i].working) <= BalanceLeft(c, h.states[j], balance)
    ensures NetReserved(c.queue, h.states[j].working, h.states[i].working) <= BudgetLeft(c, h.states[j])
  {
    AllowanceIsLeft(c, h, j, i, balance);
  }

  /** A job is admitted, rather than refused for the budget, exactly when its reservation fits in both. */
  lemma AdmittedIffFits(c: Setup, h: History, j: nat, i: nat, balance: real)
    requires ValidSetup(c) && Legal(c, h) && LastSeen(h, j, i, balance)
    requires i < |h.events| && (h.events[i].Admit? || h.events[i].RefuseOverBudget?)
    ensures h.states[i].mem.Up? && h.states[i].mem.loop.cursor < |c.queue|
    ensures var reserve := c.queue[h.states[i].mem.loop.cursor].reserve;
            var net := NetReserved(c.queue, h.states[j].working, h.states[i].working);
            h.events[i].Admit? <==>
              net + reserve <= BalanceLeft(c, h.states[j], balance) && net + reserve <= BudgetLeft(c, h.states[j])
  {
    assert Steps(c, h.states[i], h.events[i], h.states[i + 1]);
    AllowanceIsLeft(c, h, j, i, balance);
  }
}
