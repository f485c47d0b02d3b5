/** One worker's scheduler, working on the shared tables in place. */
module Scheduler {
  import opened Common
  import opened Schedule
  import opened JobTables
  import opened SchedulerRuns
  import opened SchedulerTiming

  class JobStore {
    var jobs: map<string, Job>
    var runs: seq<JobRun>

    constructor ()
      ensures Rows() == Tables(map[], [])
    {
      jobs, runs := map[], [];
    }

    function Rows(): Tables
      reads this
    {
      Tables(jobs, runs)
    }
  }

  /** What the environment contributes to one turn of the loop: clock readings and the job's outcome. */
  datatype Tick = Tick(claimedAt: Time, finishedAt: Time, failure: Option<Failure>)

  class Worker {
    const workerId: string
    const leaseMs: int
    const store: JobStore
    var definitions: map<string, Definition>
    var names: seq<string>

    constructor (workerId: string, leaseMs: int, store: JobStore)
      ensures this.workerId == workerId && this.leaseMs == leaseMs && this.store == store
      ensures definitions == map[] && Valid()
    {
      this.workerId, this.leaseMs, this.store := workerId, leaseMs, store;
      definitions, names := map[], [];
    }

    /** `names` lists the registered jobs in registration order. */
    ghost predicate Valid()
      reads this
    {
      && ValidDefinitions(definitions)
      && forall name :: name in names <==> name in definitions
    }

    /** Registers a job and creates its schedule row; an existing slot is kept. */
    method Register(name: string, d: Definition, now: Time)
      requires Valid() && d.schedule.Valid()
      modifies this, store
      ensures Valid() && definitions == old(definitions)[name := d]
      ensures store.Rows() == RegisterJob(old(store.Rows()), name, d, now)
    {
      if name !in definitions {
        names := names + [name];
      }
      definitions := definitions[name := d];
      if name in store.jobs {
        store.jobs := store.jobs[name := store.jobs[name].(intervalSeconds := d.schedule.everySeconds)];
      } else {
        var first := SlotAtOrAfter(d.schedule, now);
        store.jobs := store.jobs[
          name := Job(d.schedule.everySeconds, first, first, 0, None, None, None, None, None, 0)];
      }
    }

    predicate Claimable(name: string, now: Time)
      reads store
    {
      name in store.jobs && Due(store.jobs[name], now)
    }

    /** The registered job whose time came first, among those that are due. */
    method FirstDue(now: Time) returns (first: Option<string>)
      requires Valid()
      ensures first.None? ==> forall name | name in definitions :: !Claimable(name, now)
      ensures first.Some? ==> first.value in definitions && Claimable(first.value, now)
      ensures first.Some? ==> forall name | name in definitions && Claimable(name, now) ::
        store.jobs[first.value].nextRunAt <= store.jobs[name].nextRunAt
    {
      first := None;
      var k := 0;
      while k < |names|
        invariant k <= |names|
        invariant first.None? ==> forall j | 0 <= j < k :: !Claimable(names[j], now)
        invariant first.Some? ==> first.value in names && Claimable(first.value, now)
        invariant first.Some? ==> forall j | 0 <= j < k && Claimable(names[j], now) ::
          store.jobs[first.value].nextRunAt <= store.jobs[names[j]].nextRunAt
      {
        if Claimable(names[k], now)
          && (first.None? || store.jobs[names[k]].nextRunAt < store.jobs[first.value].nextRunAt) {
          first := Some(names[k]);
        }
        k := k + 1;
      }
    }

    /** Marks what a dead worker left RUNNING; returns how many runs that was. */
    method ExpireStaleRuns(name: string, now: Time) returns (stale: nat)
      modifies store`runs
      ensures store.runs == ExpireRuns(old(store.runs), name, now)
      ensures stale == 0 ==> store.runs == old(store.runs)
    {
      stale := 0;
      var k := 0;
      while k < |store.runs|
        invariant k <= |store.runs| == |old(store.runs)|
        invariant forall j | 0 <= j < k :: store.runs[j] == ExpireRun(old(store.runs)[j], name, now)
        invariant forall j | k <= j < |store.runs| :: store.runs[j] == old(store.runs)[j]
        invariant stale == 0 ==> store.runs == old(store.runs)
      {
        if IsRunning(store.runs[k], name) {
          store.runs := store.runs[k := ExpireRun(store.runs[k], name, now)];
          stale := stale + 1;
        }
        k := k + 1;
      }
    }

    /** Claims the first due job with a lease. The run's (job, slot, attempt) must be new. */
    method Claim(now: Time) returns (claim: Option<Claim>)
      requires Valid()
      requires forall name | name in store.jobs ::
        SlotAttemptFree(store.runs, name, store.jobs[name].slot, store.jobs[name].attempt + 1)
      modifies store
      ensures claim.None? ==> store.Rows() == old(store.Rows())
      ensures claim.None? ==> forall name | name in definitions :: !old(Claimable(name, now))
      ensures claim.Some? ==>
        var name := claim.value.job;
        && name in definitions && old(Claimable(name, now))
        && (forall other | other in definitions && old(Claimable(other, now)) ::
            old(store.jobs)[name].nextRunAt <= old(store.jobs)[other].nextRunAt)
        && claim.value == ClaimOf(old(store.Rows()), name)
        && store.Rows() == ClaimJob(old(store.Rows()), workerId, name, now, leaseMs)
    {
      var first := FirstDue(now);
      if first.None? {
        return None;
      }
      var name := first.value;
      var row := store.jobs[name];
      var _ := ExpireStaleRuns(name, now);
      var attempt := row.attempt + 1;
      store.jobs := store.jobs[name := row.(
        attempt := attempt, lockedBy := Some(workerId), lockedUntil := Some(now + leaseMs), lastStartedAt := Some(now))];
      var run := |store.runs|;
      store.runs := store.runs + [JobRun(name, row.slot, attempt, workerId, RUNNING, now, None, None)];
      return Some(JobTables.Claim.Claim(name, row.slot, attempt, run));
    }

    method RenewLease(name: string, now: Time)
      modifies store`jobs
      ensures store.Rows() == JobTables.RenewLease(old(store.Rows()), workerId, name, now, leaseMs)
    {
      if name in store.jobs && store.jobs[name].lockedBy == Some(workerId) {
        store.jobs := store.jobs[name := store.jobs[name].(lockedUntil := Some(now + leaseMs))];
      }
    }

    method Finish(claim: Claim, now: Time, failure: Option<Failure>)
      requires Valid() && claim.job in definitions && claim.run < |store.runs|
      modifies store
      ensures store.Rows() == FinishRun(old(store.Rows()), workerId, definitions[claim.job], claim, now, failure)
      ensures HoldsLease(old(store.Rows()), workerId, claim) ==>
        var job := store.jobs[claim.job];
        && job.lockedBy.None? && job.lockedUntil.None?
        && if failure.None? || definitions[claim.job].maxAttempts <= claim.attempt then
            job.nextRunAt == job.slot && claim.slot < job.slot && now < job.slot && job.attempt == 0
          else
            job.slot == claim.slot && now + 30000 <= job.nextRunAt <= now + 900000
    {
      NextSlotAdvances(definitions[claim.job].schedule, claim.slot, now);
      RetryWaits(claim.attempt);
      hide NextSlot, RetryDelayMs;
      var d := definitions[claim.job];
      var succeeded := failure.None?;
      var exhausted := !succeeded && d.maxAttempts <= claim.attempt;
      var advance := succeeded || exhausted;
      var following := NextSlot(d.schedule, claim.slot, now);
      if claim.job in store.jobs
        && store.jobs[claim.job].lockedBy == Some(workerId) && store.jobs[claim.job].slot == claim.slot {
        var row := store.jobs[claim.job].(lockedBy := None, lockedUntil := None, lastFinishedAt := Some(now));
        row := row.(lastStatus := Some(if succeeded then SUCCEEDED else FAILED));
        if advance {
          row := row.(slot := following, nextRunAt := following, attempt := 0);
        } else {
          row := row.(nextRunAt := now + RetryDelayMs(claim.attempt));
        }
        row := row.(consecutiveFailures := if succeeded then 0 else row.consecutiveFailures + 1);
        store.jobs := store.jobs[claim.job := row];
      }
      store.runs := store.runs[claim.run := store.runs[claim.run].(
        status := if succeeded then SUCCEEDED else FAILED, finishedAt := Some(now), error := ErrorOf(failure))];
    }

    /** One turn of the loop: claim the first due job, run it, finish it. */
    method RunNext(tick: Tick, ghost defs: Definitions, ghost others: map<string, Claim>)
      returns (claim: Option<Claim>, ghost steps: seq<Step>)
      requires Knows(defs)
      requires workerId !in others && Sound(defs, System(store.Rows(), others))
      modifies store
      ensures claim.None? ==> steps == [] && store.Rows() == old(store.Rows())
      ensures claim.None? ==> forall name | name in definitions :: !Claimable(name, tick.claimedAt)
      ensures claim.Some? ==> steps == [
        TryClaim(workerId, claim.value.job, tick.claimedAt, leaseMs),
        Step.Finish(workerId, tick.finishedAt, tick.failure)]
      ensures System(store.Rows(), others) == Run(defs, System(old(store.Rows()), others), steps)
    {
      ghost var before := System(store.Rows(), others);
      SoundClaimsFree(defs, before);
      hide Sound, FinishRun, ClaimJob, Run;
      assert Run(defs, before, []) == before by {
        RunNothing(defs, before);
      }
      claim := Claim(tick.claimedAt);
      steps := [];
      if claim.None? {
        return;
      }
      steps := [
        TryClaim(workerId, claim.value.job, tick.claimedAt, leaseMs),
        Step.Finish(workerId, tick.finishedAt, tick.failure)];
      assert Execute(defs, before, steps[0]) == System(store.Rows(), others[workerId := claim.value]);
      Finish(claim.value, tick.finishedAt, tick.failure);
      assert others[workerId := claim.value] - {workerId} == others;
      RunTwo(defs, before, steps[0], steps[1]);
    }

    ghost predicate Knows(defs: Definitions)
      reads this
    {
      && Valid() && ValidDefinitions(defs)
      && forall name | name in definitions :: name in defs && defs[name] == definitions[name]
    }

    /**
     * Runs every due job once, one at a time, until nothing is due or the ticks
     * end (shutdown). What it does to the tables is a run of the lease protocol,
     * so the protocol's guarantees hold of it, beside any claims other workers hold.
     */
    method RunDue(ticks: seq<Tick>, ghost defs: Definitions, ghost others: map<string, Claim>)
      returns (ran: nat, ghost steps: seq<Step>)
      requires Knows(defs)
      requires workerId !in others && Sound(defs, System(store.Rows(), others))
      modifies store
      ensures ran <= |ticks|
      ensures System(store.Rows(), others) == Run(defs, System(old(store.Rows()), others), steps)
      ensures Sound(defs, System(store.Rows(), others))
      ensures ran < |ticks| ==> forall name | name in definitions :: !Claimable(name, ticks[ran].claimedAt)
    {
      ran, steps := 0, [];
      ghost var start := System(store.Rows(), others);
      while ran < |ticks|
        invariant ran <= |ticks|
        invariant System(store.Rows(), others) == Run(defs, start, steps)
        invariant Sound(defs, System(store.Rows(), others))
      {
        var claim, turn := RunNext(ticks[ran], defs, others);
        if claim.None? {
          return;
        }
        RunConcat(defs, start, steps, turn);
        RunSound(defs, Run(defs, start, steps), turn);
        steps := steps + turn;
        ran := ran + 1;
      }
    }
  }

  lemma SoundClaimsFree(defs: Definitions, s: System)
    requires Sound(defs, s)
    ensures forall name | name in s.tables.jobs ::
      SlotAttemptFree(s.tables.runs, name, s.tables.jobs[name].slot, s.tables.jobs[name].attempt + 1)
  {
  }

  lemma {:induction false} RunConcat(defs: Definitions, s: System, first: seq<Step>, second: seq<Step>)
    requires ValidDefinitions(defs)
    ensures Run(defs, s, first + second) == Run(defs, Run(defs, s, first), second)
    decreases |first|
  {
    if first == [] {
      assert first + second == second;
    } else {
      assert (first + second)[1..] == first[1..] + second;
      RunConcat(defs, Execute(defs, s, first[0]), first[1..], second);
    }
  }

  lemma RunNothing(defs: Definitions, s: System)
    requires ValidDefinitions(defs)
    ensures Run(defs, s, []) == s
  {
  }

  lemma RunTwo(defs: Definitions, s: System, a: Step, b: Step)
    requires ValidDefinitions(defs)
    ensures Run(defs, s, [a, b]) == Execute(defs, Execute(defs, s, a), b)
  {
    var mid := Execute(defs, s, a);
    assert [a, b][1..] == [b] && [b][1..] == [];
    assert Run(defs, s, [a, b]) == Run(defs, mid, [b]) == Run(defs, Execute(defs, mid, b), []);
  }
}
