/** Whom the budget admits, and what it counts. */
module BudgetDecisions {
  import opened CostBudget
  import opened Options
  import opened Redis
  import opened Tenants

  /** The day of the clock, counted from the epoch in milliseconds. */
  function Today(s: State): (day: int) {
    s.db.now / 86_400_000
  }

  /** A turn is admitted exactly without a positive budget or while today's recorded spend is below it. */
  lemma {:induction false} AdmittedIffBelow(now: int, steps: seq<Step>, t: Tenant, budget: Option<int>)
    ensures var s := Run(now, steps);
            var s' := Apply(s, Admit(t, budget));
            if budget == None || budget.value <= 0 || Recorded(s.log, t, Today(s)) < budget.value
            then s' == s.(inflight := s.inflight + multiset{t}) else s' == s
  {
    CounterIsTheSum(now, steps, t, Today(Run(now, steps)));
  }

  /** What is recorded: the positive cost of an admitted turn, for its tenant and the day of the recording. */
  lemma {:induction false} RecordingAdds(now: int, steps: seq<Step>, u: Tenant, cost: int, budget: Option<int>,
                                         t: Tenant, day: int)
    ensures var s := Run(now, steps);
            var s' := Apply(s, Record(u, cost, budget));
            && s'.inflight == (if u in s.inflight then s.inflight - multiset{u} else s.inflight)
            && Recorded(s'.log, t, day) == Recorded(s.log, t, day)
                 + (if u in s.inflight && cost > 0 && t == u && day == Today(s) then cost else 0)
            && s'.emitted == s.emitted && s'.lost == s.lost && s'.db.now == s.db.now
  {
    var s := Run(now, steps);
    if u in s.inflight && cost > 0 { RecordedMore(s.log, Entry(u, Today(s), cost), t, day); }
  }

  /** Every other step leaves the record as it is; one that gives a turn up only ends that turn. */
  lemma {:induction false} OthersRecordNothing(s: State, step: Step)
    requires !step.Record?
    ensures Apply(s, step).log == s.log
    ensures step.Abandon? && step.t in s.inflight ==>
              Apply(s, step) == s.(inflight := s.inflight - multiset{step.t})
    ensures step.Pass? ==> Apply(s, step) == s.(db := s.db.(now := s.db.now + step.ms))
  {
  }

  /** Under one budget of at least 2 the crossing is at 80 percent of it, rounded down. */
  lemma {:induction false} CrossingAtFourFifths(now: int, steps: seq<Step>, t: Tenant, day: int, budget: int)
    requires budget > 0 && OneBudget(steps, t, budget)
    ensures var s := Run(now, steps);
            Crossings(s, t, day) == if budget >= 2 && 100 * Recorded(s.log, t, day) > 80 * budget - 100 then 1 else 0
  {
    OneCrossing(now, steps, t, day, budget);
  }

  lemma {:induction false} PendingIsFirst(s: State, t: Tenant, day: int, budget: int)
    requires AlertFits(s, t, day, budget) && (t, day) in s.pending
    ensures Alert(t, day) !in s.db.cells
  {
  }

  lemma {:induction false} FirstIsSent(s: State, t: Tenant, day: int)
    requires (t, day) in s.pending && Alert(t, day) !in s.db.cells
    ensures Apply(s, SendAlert(t, day)).emitted == s.emitted + multiset{(t, day)}
    ensures Apply(s, SendAlert(t, day)).pending == s.pending - multiset{(t, day)}
  {
  }

  /** The crossing's alert, if its process lives to send it, is emitted. */
  lemma {:induction false} CrossingIsEmitted(now: int, steps: seq<Step>, t: Tenant, day: int, budget: int)
    requires budget > 0 && OneBudget(steps, t, budget)
    ensures var s := Run(now, steps);
            (t, day) in s.pending ==>
              && Apply(s, SendAlert(t, day)).emitted == s.emitted + multiset{(t, day)}
              && Apply(s, SendAlert(t, day)).pending == s.pending - multiset{(t, day)}
              && Apply(s, LoseAlert(t, day)) ==
                 s.(pending := s.pending - multiset{(t, day)}, lost := s.lost + multiset{(t, day)})
  {
    OneCrossing(now, steps, t, day, budget);
    var s := Run(now, steps);
    if (t, day) in s.pending {
      PendingIsFirst(s, t, day, budget);
      FirstIsSent(s, t, day);
    }
  }
}
