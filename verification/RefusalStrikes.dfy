/** The local scheduler's refusal strikes: which firing disables a job. */
module RefusalStrikes {

  const REFUSAL_STRIKE_LIMIT: nat := 3

  datatype Outcome = Succeeded | Refused | Failed

  datatype Firing = Firing(job: string, outcome: Outcome)

  /** `disables` lists the calls to the store: the job, and the strikes named in the reason. */
  datatype State = State(strikes: map<string, nat>, disables: seq<(string, nat)>)

  function Strikes(s: State, job: string): (r: nat) {
    if job in s.strikes then s.strikes[job] else 0
  }

  /** What one firing does; `stored` is false for a scheduler without a store. */
  function After(s: State, f: Firing, stored: bool): (r: State) {
    if f.outcome != Refused then s.(strikes := s.strikes - {f.job})
    else
      var n := Strikes(s, f.job) + 1;
      if stored && n >= REFUSAL_STRIKE_LIMIT
      then State(s.strikes - {f.job}, s.disables + [(f.job, n)])
      else s.(strikes := s.strikes[f.job := n])
  }

  function Run(firings: seq<Firing>, stored: bool): (r: State) {
    if firings == [] then State(map[], [])
    else After(Run(firings[..|firings| - 1], stored), firings[|firings| - 1], stored)
  }

  // ---------------------------------------------------------------- the closure

  datatype Job = Job(enabled: bool, disabledBy: nat)

  class JobStore {
    var jobs: map<string, Job>

    constructor ()
      ensures jobs == map[]
    {
      jobs := map[];
    }

    /** A job that is gone is not brought back. */
    method DisableWithReason(job: string, strikes: nat) returns (found: bool)
      modifies this
      ensures found == (job in old(jobs))
      ensures jobs == if found then old(jobs)[job := Job(false, strikes)] else old(jobs)
    {
      found := job in jobs;
      if found { jobs := jobs[job := Job(false, strikes)]; }
    }
  }

  class Fire {
    var strikes: map<string, nat>
    ghost var disables: seq<(string, nat)>
    const store: JobStore?

    constructor (store: JobStore?)
      ensures this.store == store && State(strikes, disables) == Run([], store != null)
    {
      this.store := store;
      strikes, disables := map[], [];
    }

    method Finish(f: Firing)
      modifies this, store
      ensures State(strikes, disables) == After(old(State(strikes, disables)), f, store != null)
      ensures store != null ==>
                store.jobs == if f.job in old(store.jobs) && disables != old(disables)
                              then old(store.jobs)[f.job := Job(false, disables[|disables| - 1].1)] else old(store.jobs)
    {
      if f.outcome == Refused {
        var n := (if f.job in strikes then strikes[f.job] else 0) + 1;
        strikes := strikes[f.job := n];
        if store != null && n >= REFUSAL_STRIKE_LIMIT {
          var _ := store.DisableWithReason(f.job, n);
          strikes := strikes - {f.job};
          disables := disables + [(f.job, n)];
          assert strikes == old(strikes) - {f.job};
        }
      } else {
        strikes := strikes - {f.job};
      }
    }
  }

  // ---------------------------------------------------------------- what the strikes count

  /** How many of the job's latest firings, one after the other, were refusals. */
  function Trailing(firings: seq<Firing>, job: string): (r: nat) {
    if firings == [] then 0
    else
      var last := firings[|firings| - 1];
      if last.job != job then Trailing(firings[..|firings| - 1], job)
      else if last.outcome == Refused then Trailing(firings[..|firings| - 1], job) + 1
      else 0
  }

  /** The firings that complete a third refusal in a row. */
  function Thirds(firings: seq<Firing>, job: string): (r: nat) {
    if firings == [] then 0
    else
      var last := firings[|firings| - 1];
      Thirds(firings[..|firings| - 1], job) +
      if last == Firing(job, Refused) && Trailing(firings, job) % 3 == 0 then 1 else 0
  }

  lemma NextModThree(n: nat)
    ensures (n + 1) % 3 == if n % 3 == 2 then 0 else n % 3 + 1
  {
  }

  ghost predicate StrikesFit(firings: seq<Firing>, job: string) {
    var s := Run(firings, true);
    && Strikes(s, job) == Trailing(firings, job) % 3
    && (job in s.strikes ==> s.strikes[job] > 0)
    && multiset(s.disables)[(job, 3)] == Thirds(firings, job)
    && forall n :: n != 3 ==> (job, n) !in s.disables
  }

  /**
   * Whatever other jobs do in between, a job has as many strikes as its latest firings were refusals, modulo
   * three; it is disabled once for every third refusal in a row, with exactly three strikes as the reason.
   */
  lemma {:induction false} StrikesAreTrailingRefusals(firings: seq<Firing>, job: string)
    ensures StrikesFit(firings, job)
  {
    if firings != [] {
      StrikesAreTrailingRefusals(firings[..|firings| - 1], job);
      NextModThree(Trailing(firings[..|firings| - 1], job));
    }
  }

  /** Without a store nothing is disabled and the strikes are all the latest refusals. */
  lemma {:induction false} NoStoreNeverDisables(firings: seq<Firing>, job: string)
    ensures Run(firings, false).disables == [] && Strikes(Run(firings, false), job) == Trailing(firings, job)
  {
    if firings != [] { NoStoreNeverDisables(firings[..|firings| - 1], job); }
  }
}
