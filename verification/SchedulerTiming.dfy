/** When jobs run: slots, leases and retries over every interleaving of the lease protocol. */
module SchedulerTiming {
  import opened Common
  import opened Schedule
  import opened JobTables
  import opened SchedulerRuns

  /** A job between slots waits for its slot; between attempts it waits out the retry delay. */
  ghost predicate JobTimed(d: Definition, job: Job) {
    && Aligned(d.schedule, job.slot)
    && (job.attempt == 0 ==> job.nextRunAt == job.slot && job.lockedBy.None?)
    && (job.lockedBy.None? && job.attempt > 0 ==>
        && job.lastFinishedAt.Some? && job.lastStatus == Some(FAILED)
        && job.nextRunAt == job.lastFinishedAt.value + RetryDelayMs(job.attempt))
    && (job.lockedBy.Some? && job.attempt == 1 ==> job.nextRunAt == job.slot)
    && (job.consecutiveFailures > 0 <==> job.lastStatus == Some(FAILED))
    && (job.lastStatus.Some? <==> job.lastFinishedAt.Some?)
    && job.lastStatus != Some(RUNNING)
  }

  /** A first attempt never starts before its slot, and a run is finished exactly when it is not RUNNING. */
  ghost predicate RunTimed(defs: Definitions, run: JobRun) {
    && run.job in defs && Aligned(defs[run.job].schedule, run.slot)
    && (run.attempt == 1 ==> run.slot <= run.startedAt)
    && (run.status == RUNNING <==> run.finishedAt.None?)
    && (run.error.Some? <==> run.status == FAILED)
  }

  ghost predicate JobsTimed(defs: Definitions, jobs: map<string, Job>) {
    forall name | name in jobs :: name in defs && JobTimed(defs[name], jobs[name])
  }

  ghost predicate RunsTimed(defs: Definitions, runs: seq<JobRun>) {
    forall i | 0 <= i < |runs| :: RunTimed(defs, runs[i])
  }

  ghost predicate Timed(defs: Definitions, s: System) {
    JobsTimed(defs, s.tables.jobs) && RunsTimed(defs, s.tables.runs)
  }

  // --- what each step writes ------------------------------------------------------------

  /** Registering starts a new job at the first boundary from now on, and only renames the interval of a known one. */
  lemma RegisterWrites(defs: Definitions, s: System, name: string, now: Time)
    requires ValidDefinitions(defs) && name in defs
    ensures var after := Execute(defs, s, Register(name, now));
      && after.claims == s.claims && after.tables.runs == s.tables.runs
      && after.tables.jobs.Keys == s.tables.jobs.Keys + {name}
      && (forall other | other in s.tables.jobs && other != name ::
          after.tables.jobs[other] == s.tables.jobs[other])
      && var job := after.tables.jobs[name];
      && job.intervalSeconds == defs[name].schedule.everySeconds
      && (name in s.tables.jobs ==> job == s.tables.jobs[name].(intervalSeconds := job.intervalSeconds))
      && (name !in s.tables.jobs ==>
          && Aligned(defs[name].schedule, job.slot) && now <= job.slot
          && (forall t | Aligned(defs[name].schedule, t) && now <= t :: job.slot <= t)
          && (forall t :: Due(job, t) <==> job.slot <= t)
          && job.attempt == 0 && job.lockedBy.None? && job.consecutiveFailures == 0
          && job.lastStatus.None? && job.lastFinishedAt.None? && job.lastStartedAt.None?)
  {
    forall t
      ensures Aligned(defs[name].schedule, SlotAtOrAfter(defs[name].schedule, now))
      ensures now <= SlotAtOrAfter(defs[name].schedule, now)
      ensures Aligned(defs[name].schedule, t) && now <= t ==> SlotAtOrAfter(defs[name].schedule, now) <= t
    {
      SlotAtOrAfterIsLeast(defs[name].schedule, now, t);
    }
  }

  /** A run a new claim finds RUNNING was left by a dead worker. */
  predicate TakenOver(before: JobRun, after: JobRun, now: Time) {
    after == before.(status := FAILED, finishedAt := Some(now), error := Some("lease_expired"))
  }

  /**
   * A claim starts the job's next attempt at its slot under a lease: nobody else finds the
   * job due until the lease is over, and whatever run was left RUNNING is recorded failed.
   */
  lemma ClaimWrites(defs: Definitions, s: System, worker: string, name: string, now: Time, leaseMs: int)
    requires ValidDefinitions(defs) && CanClaim(s, worker, name, now)
    ensures var after := Execute(defs, s, TryClaim(worker, name, now, leaseMs));
      var was := s.tables.jobs[name]; var n := |s.tables.runs|;
      && was.nextRunAt <= now && (was.lockedUntil.Some? ==> was.lockedUntil.value < now)
      && after.tables.jobs.Keys == s.tables.jobs.Keys
      && (forall other | other in s.tables.jobs && other != name ::
          after.tables.jobs[other] == s.tables.jobs[other])
      && after.tables.jobs[name] == was.(
          attempt := was.attempt + 1, lockedBy := Some(worker), lockedUntil := Some(now + leaseMs),
          lastStartedAt := Some(now))
      && (forall t :: Due(after.tables.jobs[name], t) <==> was.nextRunAt <= t && now + leaseMs < t)
      && |after.tables.runs| == n + 1
      && after.tables.runs[n] == JobRun(name, was.slot, was.attempt + 1, worker, RUNNING, now, None, None)
      && (forall i | 0 <= i < n ::
          if s.tables.runs[i].job == name && s.tables.runs[i].status == RUNNING
          then TakenOver(s.tables.runs[i], after.tables.runs[i], now)
          else after.tables.runs[i] == s.tables.runs[i])
      && after.claims == s.claims[worker := Claim(name, was.slot, was.attempt + 1, n)]
  {
  }

  /** A heartbeat moves the end of the lease of the worker that holds it, and nothing else. */
  lemma HeartbeatWrites(defs: Definitions, s: System, worker: string, name: string, now: Time, leaseMs: int)
    requires ValidDefinitions(defs)
    ensures var after := Execute(defs, s, Heartbeat(worker, name, now, leaseMs));
      && after.claims == s.claims && after.tables.runs == s.tables.runs
      && after.tables.jobs.Keys == s.tables.jobs.Keys
      && (forall other | other in s.tables.jobs && other != name ::
          after.tables.jobs[other] == s.tables.jobs[other])
      && (name in s.tables.jobs ==> var was := s.tables.jobs[name]; var job := after.tables.jobs[name];
          if was.lockedBy == Some(worker) then
            && job == was.(lockedUntil := Some(now + leaseMs))
            && forall t :: Due(job, t) <==> was.nextRunAt <= t && now + leaseMs < t
          else job == was)
  {
  }

  /** How long a failed attempt is left alone: half a minute at first, a quarter of an hour at most. */
  lemma RetryWaits(attempt: nat)
    ensures 30000 <= RetryDelayMs(attempt) <= 900000
    ensures RetryDelayMs(1) == 30000
    ensures 1 <= attempt ==> RetryDelayMs(attempt + 1) == RetryDelayMs(attempt) * 2 || RetryDelayMs(attempt + 1) == 900000
  {
    RetryDelayGrows(attempt, attempt);
    RetryDelayDoubles(if attempt < 1 then 1 else attempt);
  }

  /** The job as the lease holder's finish leaves it. */
  ghost predicate Released(d: Definition, was: Job, job: Job, attempt: nat, now: Time, failure: Option<Failure>) {
    && job.lockedBy.None? && job.lockedUntil.None?
    && job.lastFinishedAt == Some(now) && job.lastStartedAt == was.lastStartedAt
    && job.intervalSeconds == was.intervalSeconds
    && job.lastStatus == Some(if failure.None? then SUCCEEDED else FAILED)
    && job.consecutiveFailures == (if failure.None? then 0 else was.consecutiveFailures + 1)
    && if failure.None? || d.maxAttempts <= attempt then
        && job.attempt == 0
        && Aligned(d.schedule, job.slot) && was.slot < job.slot && now < job.slot
        && (forall t | Aligned(d.schedule, t) && was.slot < t && now < t :: job.slot <= t)
        && job.nextRunAt == job.slot
      else
        && job.attempt == was.attempt && job.slot == was.slot
        && job.nextRunAt == now + RetryDelayMs(attempt)
  }

  /**
   * A finish by the lease holder: after a success, or the last attempt, the job is not due
   * before the least boundary after its slot and the clock; after any other failure it is
   * due again exactly when the retry delay has passed.
   */
  lemma FinishWrites(defs: Definitions, s: System, worker: string, now: Time, failure: Option<Failure>)
    requires ValidDefinitions(defs) && CanFinish(defs, s, worker)
    requires HoldsLease(s.tables, worker, s.claims[worker])
    requires Aligned(defs[s.claims[worker].job].schedule, s.claims[worker].slot)
    ensures var after := Execute(defs, s, Finish(worker, now, failure)); var c := s.claims[worker];
      var job := after.tables.jobs[c.job];
      && after.tables.jobs.Keys == s.tables.jobs.Keys
      && (forall other | other in s.tables.jobs && other != c.job ::
          after.tables.jobs[other] == s.tables.jobs[other])
      && Released(defs[c.job], s.tables.jobs[c.job], job, c.attempt, now, failure)
      && (forall t :: Due(job, t) <==> job.nextRunAt <= t)
  {
    var c := s.claims[worker];
    var d := defs[c.job];
    NextSlotAdvances(d.schedule, c.slot, now);
    forall t
      ensures Aligned(d.schedule, NextSlot(d.schedule, c.slot, now))
      ensures Aligned(d.schedule, t) && c.slot < t && now < t ==> NextSlot(d.schedule, c.slot, now) <= t
    {
      NextSlotIsLeast(d.schedule, c.slot, now, t);
    }
    hide NextSlot, RetryDelayMs, Aligned;
  }

  /** Every finish records its own run's outcome, and no other run's. */
  lemma FinishRecords(defs: Definitions, s: System, worker: string, now: Time, failure: Option<Failure>)
    requires ValidDefinitions(defs) && CanFinish(defs, s, worker)
    ensures var after := Execute(defs, s, Finish(worker, now, failure)); var c := s.claims[worker];
      && after.claims == s.claims - {worker}
      && |after.tables.runs| == |s.tables.runs|
      && (forall i | 0 <= i < |s.tables.runs| && i != c.run :: after.tables.runs[i] == s.tables.runs[i])
      && var run := after.tables.runs[c.run];
      && run == s.tables.runs[c.run].(status := run.status, finishedAt := Some(now), error := run.error)
      && (failure.None? ==> run.status == SUCCEEDED && run.error.None?)
      && (failure.Some? ==> run.status == FAILED && run.error.Some?)
      && (failure == Some(Timeout) ==> run.error == Some("timeout"))
      && (failure.Some? && failure.value.Thrown? && failure.value.name != "" ==> run.error == Some(failure.value.name))
      && (failure == Some(Thrown("")) ==> run.error == Some("error"))
  {
  }

  // --- over every run ---------------------------------------------------------------------

  /** A worker that holds the lease it was given executes the job's current attempt. */
  lemma HolderIsCurrent(defs: Definitions, s: System, worker: string)
    requires Sound(defs, s) && CanFinish(defs, s, worker)
    requires HoldsLease(s.tables, worker, s.claims[worker])
    ensures s.claims[worker].attempt == s.tables.jobs[s.claims[worker].job].attempt >= 1
  {
  }

  lemma ReleasedIsTimed(d: Definition, was: Job, job: Job, attempt: nat, now: Time, failure: Option<Failure>)
    requires JobTimed(d, was) && Released(d, was, job, attempt, now, failure)
    requires attempt == was.attempt >= 1
    ensures JobTimed(d, job)
  {
    hide Aligned, RetryDelayMs;
  }

  lemma FinishJobsTimed(defs: Definitions, s: System, worker: string, now: Time, failure: Option<Failure>)
    requires ValidDefinitions(defs) && Sound(defs, s) && JobsTimed(defs, s.tables.jobs) && CanFinish(defs, s, worker)
    ensures JobsTimed(defs, Execute(defs, s, Finish(worker, now, failure)).tables.jobs)
  {
    var c := s.claims[worker];
    hide Sound, JobTimed, ReleasedJob;
    if HoldsLease(s.tables, worker, c) {
      HolderIsCurrent(defs, s, worker);
      assert JobTimed(defs[c.job], s.tables.jobs[c.job]);
      TimedIsAligned(defs[c.job], s.tables.jobs[c.job]);
      FinishWrites(defs, s, worker, now, failure);
      ReleasedIsTimed(
        defs[c.job], s.tables.jobs[c.job], Execute(defs, s, Finish(worker, now, failure)).tables.jobs[c.job],
        c.attempt, now, failure);
    }
  }

  lemma TimedIsAligned(d: Definition, job: Job)
    requires JobTimed(d, job)
    ensures Aligned(d.schedule, job.slot)
  {
  }

  lemma FinishRunsTimed(defs: Definitions, s: System, worker: string, now: Time, failure: Option<Failure>)
    requires ValidDefinitions(defs) && RunsTimed(defs, s.tables.runs) && CanFinish(defs, s, worker)
    ensures RunsTimed(defs, Execute(defs, s, Finish(worker, now, failure)).tables.runs)
  {
    FinishRecords(defs, s, worker, now, failure);
    hide Execute, Aligned;
  }

  lemma ClaimTimed(defs: Definitions, s: System, worker: string, name: string, now: Time, leaseMs: int)
    requires ValidDefinitions(defs) && Timed(defs, s) && CanClaim(s, worker, name, now)
    ensures Timed(defs, Execute(defs, s, TryClaim(worker, name, now, leaseMs)))
  {
    ClaimWrites(defs, s, worker, name, now, leaseMs);
    hide Execute, Aligned, RetryDelayMs;
  }

  lemma StepTimed(defs: Definitions, s: System, step: Step)
    requires ValidDefinitions(defs) && Sound(defs, s) && Timed(defs, s)
    ensures Timed(defs, Execute(defs, s, step))
  {
    hide Sound, Aligned, RetryDelayMs;
    match step
    case Register(name, now) =>
      if name in defs { RegisterWrites(defs, s, name, now); }
    case TryClaim(worker, name, now, leaseMs) =>
      if CanClaim(s, worker, name, now) { ClaimTimed(defs, s, worker, name, now, leaseMs); }
    case Heartbeat(worker, name, now, leaseMs) => HeartbeatWrites(defs, s, worker, name, now, leaseMs);
    case Finish(worker, now, failure) =>
      if CanFinish(defs, s, worker) {
        FinishJobsTimed(defs, s, worker, now, failure);
        FinishRunsTimed(defs, s, worker, now, failure);
      }
    case Crash(worker) =>
  }

  lemma {:induction false} RunTimedAlways(defs: Definitions, s: System, steps: seq<Step>)
    requires ValidDefinitions(defs) && Sound(defs, s) && Timed(defs, s)
    ensures Timed(defs, Run(defs, s, steps))
    decreases |steps|
  {
    if steps != [] {
      StepSound(defs, s, steps[0]);
      StepTimed(defs, s, steps[0]);
      RunTimedAlways(defs, Execute(defs, s, steps[0]), steps[1..]);
    }
  }

  /** No run starts early: a slot is a boundary of its job's schedule, and its first attempt waits for it. */
  lemma NeverEarly(defs: Definitions, steps: seq<Step>, i: nat)
    requires ValidDefinitions(defs)
    requires i < |Run(defs, EMPTY, steps).tables.runs|
    ensures var run := Run(defs, EMPTY, steps).tables.runs[i];
      && run.job in defs && Aligned(defs[run.job].schedule, run.slot)
      && (run.attempt == 1 ==> run.slot <= run.startedAt)
      && (run.status == RUNNING <==> run.finishedAt.None?)
      && (run.status == FAILED <==> run.error.Some?)
  {
    RunTimedAlways(defs, EMPTY, steps);
  }

  /**
   * When a job may be claimed, in every reachable state: between slots from its slot on,
   * between attempts once the retry delay after its last failure has passed, and while a
   * lease is in force not at all.
   */
  lemma DueExactly(defs: Definitions, steps: seq<Step>, name: string, now: Time)
    requires ValidDefinitions(defs)
    requires name in Run(defs, EMPTY, steps).tables.jobs
    ensures var job := Run(defs, EMPTY, steps).tables.jobs[name];
      && name in defs && Aligned(defs[name].schedule, job.slot)
      && (job.attempt == 0 ==> (Due(job, now) <==> job.slot <= now))
      && (job.attempt > 0 && job.lockedBy.None? ==>
          && job.lastFinishedAt.Some? && job.lastStatus == Some(FAILED)
          && (Due(job, now) <==> job.lastFinishedAt.value + RetryDelayMs(job.attempt) <= now))
      && (job.lockedBy.Some? ==> job.lockedUntil.Some? && (Due(job, now) ==> job.lockedUntil.value < now))
      && (job.consecutiveFailures > 0 <==> job.lastStatus == Some(FAILED))
  {
    RunSound(defs, EMPTY, steps);
    RunTimedAlways(defs, EMPTY, steps);
  }

  /** In every reachable state a finish by the lease holder releases the job as scheduled. */
  lemma FinishReleases(defs: Definitions, steps: seq<Step>, worker: string, now: Time, failure: Option<Failure>)
    requires ValidDefinitions(defs)
    requires var s := Run(defs, EMPTY, steps);
      CanFinish(defs, s, worker) && HoldsLease(s.tables, worker, s.claims[worker])
    ensures var s := Run(defs, EMPTY, steps); var c := s.claims[worker];
      var job := Execute(defs, s, Finish(worker, now, failure)).tables.jobs[c.job];
      && c.attempt == s.tables.jobs[c.job].attempt
      && Released(defs[c.job], s.tables.jobs[c.job], job, c.attempt, now, failure)
      && (failure.None? || defs[c.job].maxAttempts <= c.attempt ==> (forall t :: Due(job, t) <==> job.slot <= t))
      && (failure.Some? && c.attempt < defs[c.job].maxAttempts ==>
          && (forall t :: Due(job, t) <==> now + RetryDelayMs(c.attempt) <= t)
          && forall t :: Due(job, t) ==> now + 30000 <= t)
  {
    var s := Run(defs, EMPTY, steps);
    RunSound(defs, EMPTY, steps);
    RunTimedAlways(defs, EMPTY, steps);
    HolderIsCurrent(defs, s, worker);
    FinishWrites(defs, s, worker, now, failure);
    RetryWaits(s.claims[worker].attempt);
    hide RetryDelayMs, Aligned, Sound, Timed, NextSlot;
  }
}
