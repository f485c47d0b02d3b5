/**
 * The lease protocol over any interleaving of claims, heartbeats, crashes,
 * takeovers and late finishes. Clocks are arbitrary and may disagree.
 */
module SchedulerRuns {
  import opened Common
  import opened Schedule
  import opened JobTables

  /** The tables, and for each worker process the claim it is executing. */
  datatype System = System(tables: Tables, claims: map<string, Claim>)

  datatype Step =
    | Register(job: string, now: Time)
    | TryClaim(worker: string, job: string, now: Time, leaseMs: int)
    | Heartbeat(worker: string, job: string, now: Time, leaseMs: int)
    | Finish(worker: string, now: Time, failure: Option<Failure>)
    | Crash(worker: string)

  type Definitions = map<string, Definition>

  predicate ValidDefinitions(defs: Definitions) {
    forall name | name in defs :: defs[name].schedule.Valid()
  }

  /** A worker runs one job at a time, so it claims only when it is not executing. */
  predicate CanClaim(s: System, worker: string, job: string, now: Time) {
    worker !in s.claims && job in s.tables.jobs && Due(s.tables.jobs[job], now)
  }

  predicate CanFinish(defs: Definitions, s: System, worker: string) {
    worker in s.claims && s.claims[worker].job in defs && s.claims[worker].run < |s.tables.runs|
  }

  function Execute(defs: Definitions, s: System, step: Step): System
    requires ValidDefinitions(defs)
  {
    match step
    case Register(job, now) =>
      if job in defs then s.(tables := RegisterJob(s.tables, job, defs[job], now)) else s
    case TryClaim(worker, job, now, leaseMs) =>
      if CanClaim(s, worker, job, now)
      then System(ClaimJob(s.tables, worker, job, now, leaseMs), s.claims[worker := ClaimOf(s.tables, job)])
      else s
    case Heartbeat(worker, job, now, leaseMs) => s.(tables := RenewLease(s.tables, worker, job, now, leaseMs))
    case Finish(worker, now, failure) =>
      if CanFinish(defs, s, worker) then
        var c := s.claims[worker];
        System(FinishRun(s.tables, worker, defs[c.job], c, now, failure), s.claims - {worker})
      else s
    case Crash(worker) => s.(claims := s.claims - {worker})
  }

  function Run(defs: Definitions, s: System, steps: seq<Step>): System
    requires ValidDefinitions(defs)
    decreases |steps|
  {
    if steps == [] then s else Run(defs, Execute(defs, s, steps[0]), steps[1..])
  }

  const EMPTY := System(Tables(map[], []), map[])

  // --- invariant ------------------------------------------------------------------

  predicate Before(slot: Time, attempt: nat, slot': Time, attempt': nat) {
    slot < slot' || (slot == slot' && attempt < attempt')
  }

  /** Leases come and go together, and an unlocked job still has attempts left. */
  predicate JobsSound(defs: Definitions, jobs: map<string, Job>) {
    forall name | name in jobs ::
      && name in defs
      && (jobs[name].lockedBy.Some? <==> jobs[name].lockedUntil.Some?)
      && (jobs[name].lockedBy.None? ==> jobs[name].attempt == 0 || jobs[name].attempt < defs[name].maxAttempts)
  }

  /** Every run lies at or before its job's position; runs of one job are claimed in strictly increasing order. */
  predicate RunsOrdered(t: Tables) {
    && (forall i | 0 <= i < |t.runs| ::
      && t.runs[i].job in t.jobs
      && 1 <= t.runs[i].attempt
      && !Before(t.jobs[t.runs[i].job].slot, t.jobs[t.runs[i].job].attempt, t.runs[i].slot, t.runs[i].attempt))
    && (forall i, k | 0 <= i < k < |t.runs| && t.runs[i].job == t.runs[k].job ::
      Before(t.runs[i].slot, t.runs[i].attempt, t.runs[k].slot, t.runs[k].attempt))
  }

  /** A RUNNING run is its job's current attempt, and its worker is the one named by the lock. */
  predicate RunningIsCurrent(t: Tables) {
    forall i | 0 <= i < |t.runs| && t.runs[i].status == RUNNING ::
      && t.runs[i].job in t.jobs
      && t.jobs[t.runs[i].job].lockedBy == Some(t.runs[i].worker)
      && t.jobs[t.runs[i].job].slot == t.runs[i].slot
      && t.jobs[t.runs[i].job].attempt == t.runs[i].attempt
  }

  ghost predicate LockedIsRunning(t: Tables) {
    forall name | name in t.jobs && t.jobs[name].lockedBy.Some? ::
      exists i | 0 <= i < |t.runs| :: IsRunning(t.runs[i], name)
  }

  /** A claim in a worker's hands is its own run, still RUNNING while the worker holds the lock. */
  predicate ClaimsSound(s: System) {
    forall w | w in s.claims ::
      var c := s.claims[w];
      && c.run < |s.tables.runs|
      && s.tables.runs[c.run].job == c.job
      && s.tables.runs[c.run].slot == c.slot
      && s.tables.runs[c.run].attempt == c.attempt
      && s.tables.runs[c.run].worker == w
      && c.job in s.tables.jobs
      && (s.tables.jobs[c.job].lockedBy == Some(w) ==> s.tables.runs[c.run].status == RUNNING)
  }

  /** The run of a finished slot that ended it: it succeeded or was the last attempt, and nobody can rewrite it. */
  predicate Concluded(defs: Definitions, s: System, m: nat, name: string, slot: Time) {
    && m < |s.tables.runs|
    && s.tables.runs[m].job == name && s.tables.runs[m].slot == slot
    && name in defs
    && (|| s.tables.runs[m].status == SUCCEEDED
        || (s.tables.runs[m].status == FAILED && defs[name].maxAttempts <= s.tables.runs[m].attempt))
    && forall w | w in s.claims :: s.claims[w].run != m
  }

  ghost predicate SlotConcluded(defs: Definitions, s: System, name: string, slot: Time) {
    exists m: nat :: Concluded(defs, s, m, name, slot)
  }

  /** Every slot that was ever attempted and is now past was concluded. */
  ghost predicate PastSlotsConcluded(defs: Definitions, s: System) {
    forall i | 0 <= i < |s.tables.runs| && s.tables.runs[i].job in s.tables.jobs
        && s.tables.runs[i].slot < s.tables.jobs[s.tables.runs[i].job].slot ::
      SlotConcluded(defs, s, s.tables.runs[i].job, s.tables.runs[i].slot)
  }

  ghost predicate Sound(defs: Definitions, s: System) {
    && JobsSound(defs, s.tables.jobs)
    && RunsOrdered(s.tables)
    && RunningIsCurrent(s.tables)
    && LockedIsRunning(s.tables)
    && ClaimsSound(s)
    && PastSlotsConcluded(defs, s)
  }

  // --- each step keeps it ------------------------------------------------------------

  /** Job rows that keep their slot, attempt and lock say the same about the runs; new rows start free. */
  ghost predicate JobsKept(before: map<string, Job>, after: map<string, Job>) {
    && (forall name | name in before ::
      && name in after
      && after[name].slot == before[name].slot
      && after[name].attempt == before[name].attempt
      && after[name].lockedBy == before[name].lockedBy)
    && (forall name | name in after && name !in before :: after[name].lockedBy.None?)
  }

  lemma KeptJobsSound(defs: Definitions, s: System, jobs: map<string, Job>)
    requires Sound(defs, s) && JobsKept(s.tables.jobs, jobs) && JobsSound(defs, jobs)
    ensures Sound(defs, s.(tables := s.tables.(jobs := jobs)))
  {
    var after := s.(tables := s.tables.(jobs := jobs));
    assert RunsOrdered(after.tables);
    assert RunningIsCurrent(after.tables);
    assert LockedIsRunning(after.tables);
    assert ClaimsSound(after);
    KeepsConcluded(defs, s, after);
  }

  lemma RegisterSound(defs: Definitions, s: System, job: string, now: Time)
    requires ValidDefinitions(defs) && Sound(defs, s) && job in defs
    ensures Sound(defs, Execute(defs, s, Register(job, now)))
  {
    var after := Execute(defs, s, Register(job, now));
    assert JobsSound(defs, after.tables.jobs);
    KeptJobsSound(defs, s, after.tables.jobs);
  }

  /** A conclusion stays as long as its run keeps its row and no claim on it appears. */
  lemma KeepsConcluded(defs: Definitions, s: System, after: System)
    requires PastSlotsConcluded(defs, s)
    requires |s.tables.runs| <= |after.tables.runs|
    requires forall i | 0 <= i < |s.tables.runs| ::
      after.tables.runs[i].job == s.tables.runs[i].job && after.tables.runs[i].slot == s.tables.runs[i].slot
    requires forall m: nat, name, slot | Concluded(defs, s, m, name, slot) :: Concluded(defs, after, m, name, slot)
    ensures forall i | 0 <= i < |s.tables.runs| && s.tables.runs[i].job in s.tables.jobs
        && s.tables.runs[i].slot < s.tables.jobs[s.tables.runs[i].job].slot ::
      SlotConcluded(defs, after, after.tables.runs[i].job, after.tables.runs[i].slot)
  {
    forall i | 0 <= i < |s.tables.runs| && s.tables.runs[i].job in s.tables.jobs
      && s.tables.runs[i].slot < s.tables.jobs[s.tables.runs[i].job].slot
      ensures SlotConcluded(defs, after, after.tables.runs[i].job, after.tables.runs[i].slot)
    {
      var name, slot := s.tables.runs[i].job, s.tables.runs[i].slot;
      assert SlotConcluded(defs, s, name, slot);
      var m: nat :| Concluded(defs, s, m, name, slot);
      assert Concluded(defs, after, m, name, slot);
    }
  }

  lemma HeartbeatSound(defs: Definitions, s: System, worker: string, job: string, now: Time, leaseMs: int)
    requires ValidDefinitions(defs) && Sound(defs, s)
    ensures Sound(defs, Execute(defs, s, Heartbeat(worker, job, now, leaseMs)))
  {
    var after := Execute(defs, s, Heartbeat(worker, job, now, leaseMs));
    assert JobsSound(defs, after.tables.jobs);
    KeptJobsSound(defs, s, after.tables.jobs);
  }

  lemma CrashSound(defs: Definitions, s: System, worker: string)
    requires ValidDefinitions(defs) && Sound(defs, s)
    ensures Sound(defs, Execute(defs, s, Crash(worker)))
  {
    KeepsConcluded(defs, s, Execute(defs, s, Crash(worker)));
  }

  lemma ClaimKeepsOrder(t: Tables, worker: string, job: string, now: Time, leaseMs: int)
    requires job in t.jobs && RunsOrdered(t)
    ensures RunsOrdered(ClaimJob(t, worker, job, now, leaseMs))
  {
    var after := ClaimJob(t, worker, job, now, leaseMs);
    var n := |t.runs|;
    assert forall i | 0 <= i < n ::
      after.runs[i].job == t.runs[i].job && after.runs[i].slot == t.runs[i].slot
      && after.runs[i].attempt == t.runs[i].attempt;
    forall i | 0 <= i < n && after.runs[i].job == job
      ensures Before(after.runs[i].slot, after.runs[i].attempt, after.runs[n].slot, after.runs[n].attempt)
    {
      assert !Before(t.jobs[job].slot, t.jobs[job].attempt, t.runs[i].slot, t.runs[i].attempt);
    }
  }

  lemma ClaimKeepsRunning(t: Tables, worker: string, job: string, now: Time, leaseMs: int)
    requires job in t.jobs && RunningIsCurrent(t)
    ensures RunningIsCurrent(ClaimJob(t, worker, job, now, leaseMs))
  {
    var after := ClaimJob(t, worker, job, now, leaseMs);
    forall i | 0 <= i < |t.runs| && after.runs[i].status == RUNNING
      ensures t.runs[i].status == RUNNING && after.runs[i] == t.runs[i] && t.runs[i].job != job
    {
    }
  }

  lemma ClaimKeepsLocked(t: Tables, worker: string, job: string, now: Time, leaseMs: int)
    requires job in t.jobs && LockedIsRunning(t)
    ensures LockedIsRunning(ClaimJob(t, worker, job, now, leaseMs))
  {
    var after := ClaimJob(t, worker, job, now, leaseMs);
    forall name | name in after.jobs && after.jobs[name].lockedBy.Some?
      ensures exists i | 0 <= i < |after.runs| :: IsRunning(after.runs[i], name)
    {
      if name == job {
        assert IsRunning(after.runs[|t.runs|], name);
      } else {
        var i :| 0 <= i < |t.runs| && IsRunning(t.runs[i], name);
        assert after.runs[i] == t.runs[i];
      }
    }
  }

  lemma ClaimKeepsClaims(s: System, worker: string, job: string, now: Time, leaseMs: int)
    requires ClaimsSound(s) && CanClaim(s, worker, job, now)
    ensures ClaimsSound(
      System(ClaimJob(s.tables, worker, job, now, leaseMs), s.claims[worker := ClaimOf(s.tables, job)]))
  {
  }

  lemma ClaimKeepsConcluded(defs: Definitions, s: System, worker: string, job: string, now: Time, leaseMs: int)
    requires PastSlotsConcluded(defs, s) && RunsOrdered(s.tables) && CanClaim(s, worker, job, now)
    ensures PastSlotsConcluded(defs,
      System(ClaimJob(s.tables, worker, job, now, leaseMs), s.claims[worker := ClaimOf(s.tables, job)]))
  {
    var after := System(ClaimJob(s.tables, worker, job, now, leaseMs), s.claims[worker := ClaimOf(s.tables, job)]);
    forall m: nat, name, slot | Concluded(defs, s, m, name, slot)
      ensures Concluded(defs, after, m, name, slot)
    {
      assert after.tables.runs[m] == s.tables.runs[m];
    }
    KeepsConcluded(defs, s, after);
  }

  lemma ClaimSound(defs: Definitions, s: System, worker: string, job: string, now: Time, leaseMs: int)
    requires ValidDefinitions(defs) && Sound(defs, s)
    requires CanClaim(s, worker, job, now)
    ensures Sound(defs, Execute(defs, s, TryClaim(worker, job, now, leaseMs)))
  {
    ClaimKeepsOrder(s.tables, worker, job, now, leaseMs);
    ClaimKeepsRunning(s.tables, worker, job, now, leaseMs);
    ClaimKeepsLocked(s.tables, worker, job, now, leaseMs);
    ClaimKeepsClaims(s, worker, job, now, leaseMs);
    ClaimKeepsConcluded(defs, s, worker, job, now, leaseMs);
  }

  lemma FinishKeepsOrder(defs: Definitions, s: System, worker: string, now: Time, failure: Option<Failure>)
    requires ValidDefinitions(defs) && Sound(defs, s) && CanFinish(defs, s, worker)
    ensures RunsOrdered(Execute(defs, s, Finish(worker, now, failure)).tables)
  {
    var c := s.claims[worker];
    NextSlotAdvances(defs[c.job].schedule, c.slot, now);
    var after := Execute(defs, s, Finish(worker, now, failure)).tables;
    assert forall i | 0 <= i < |after.runs| ::
      after.runs[i].job == s.tables.runs[i].job && after.runs[i].slot == s.tables.runs[i].slot
      && after.runs[i].attempt == s.tables.runs[i].attempt;
  }

  lemma FinishKeepsRunning(defs: Definitions, s: System, worker: string, now: Time, failure: Option<Failure>)
    requires ValidDefinitions(defs) && Sound(defs, s) && CanFinish(defs, s, worker)
    ensures RunningIsCurrent(Execute(defs, s, Finish(worker, now, failure)).tables)
  {
    var c := s.claims[worker];
    var after := Execute(defs, s, Finish(worker, now, failure)).tables;
    forall i | 0 <= i < |after.runs| && after.runs[i].status == RUNNING
      ensures i != c.run && after.jobs[after.runs[i].job] == s.tables.jobs[after.runs[i].job]
    {
    }
  }

  lemma FinishKeepsLocked(defs: Definitions, s: System, worker: string, now: Time, failure: Option<Failure>)
    requires ValidDefinitions(defs) && Sound(defs, s) && CanFinish(defs, s, worker)
    ensures LockedIsRunning(Execute(defs, s, Finish(worker, now, failure)).tables)
  {
    var c := s.claims[worker];
    var after := Execute(defs, s, Finish(worker, now, failure)).tables;
    forall name | name in after.jobs && after.jobs[name].lockedBy.Some?
      ensures exists i | 0 <= i < |after.runs| :: IsRunning(after.runs[i], name)
    {
      assert after.jobs[name] == s.tables.jobs[name];
      var i :| 0 <= i < |s.tables.runs| && IsRunning(s.tables.runs[i], name);
      assert i != c.run;
      assert after.runs[i] == s.tables.runs[i];
    }
  }

  lemma FinishKeepsClaims(defs: Definitions, s: System, worker: string, now: Time, failure: Option<Failure>)
    requires ValidDefinitions(defs) && Sound(defs, s) && CanFinish(defs, s, worker)
    ensures ClaimsSound(Execute(defs, s, Finish(worker, now, failure)))
  {
  }

  lemma FinishKeepsJobs(defs: Definitions, s: System, worker: string, now: Time, failure: Option<Failure>)
    requires ValidDefinitions(defs) && Sound(defs, s) && CanFinish(defs, s, worker)
    ensures JobsSound(defs, Execute(defs, s, Finish(worker, now, failure)).tables.jobs)
  {
  }

  lemma FinishConcludes(defs: Definitions, s: System, worker: string, now: Time, failure: Option<Failure>)
    requires ValidDefinitions(defs) && Sound(defs, s) && CanFinish(defs, s, worker)
    ensures PastSlotsConcluded(defs, Execute(defs, s, Finish(worker, now, failure)))
  {
    var c := s.claims[worker];
    var after := Execute(defs, s, Finish(worker, now, failure));
    KeepsConcluded(defs, s, after);
    forall i | 0 <= i < |after.tables.runs|
      && after.tables.runs[i].slot < after.tables.jobs[after.tables.runs[i].job].slot
      && s.tables.jobs[after.tables.runs[i].job].slot <= after.tables.runs[i].slot
      ensures SlotConcluded(defs, after, after.tables.runs[i].job, after.tables.runs[i].slot)
    {
      assert Concluded(defs, after, c.run, after.tables.runs[i].job, after.tables.runs[i].slot);
    }
  }

  lemma FinishSound(defs: Definitions, s: System, worker: string, now: Time, failure: Option<Failure>)
    requires ValidDefinitions(defs) && Sound(defs, s) && CanFinish(defs, s, worker)
    ensures Sound(defs, Execute(defs, s, Finish(worker, now, failure)))
  {
    FinishKeepsJobs(defs, s, worker, now, failure);
    FinishKeepsOrder(defs, s, worker, now, failure);
    FinishKeepsRunning(defs, s, worker, now, failure);
    FinishKeepsLocked(defs, s, worker, now, failure);
    FinishKeepsClaims(defs, s, worker, now, failure);
    FinishConcludes(defs, s, worker, now, failure);
  }

  lemma StepSound(defs: Definitions, s: System, step: Step)
    requires ValidDefinitions(defs) && Sound(defs, s)
    ensures Sound(defs, Execute(defs, s, step))
  {
    match step
    case Register(job, now) =>
      if job in defs { RegisterSound(defs, s, job, now); }
    case TryClaim(worker, job, now, leaseMs) =>
      if CanClaim(s, worker, job, now) { ClaimSound(defs, s, worker, job, now, leaseMs); }
    case Heartbeat(worker, job, now, leaseMs) => HeartbeatSound(defs, s, worker, job, now, leaseMs);
    case Finish(worker, now, failure) =>
      if CanFinish(defs, s, worker) { FinishSound(defs, s, worker, now, failure); }
    case Crash(worker) => CrashSound(defs, s, worker);
  }

  lemma {:induction false} RunSound(defs: Definitions, s: System, steps: seq<Step>)
    requires ValidDefinitions(defs) && Sound(defs, s)
    ensures Sound(defs, Run(defs, s, steps))
    decreases |steps|
  {
    if steps != [] {
      StepSound(defs, s, steps[0]);
      RunSound(defs, Execute(defs, s, steps[0]), steps[1..]);
    }
  }

  // --- exclusivity ------------------------------------------------------------------

  /** In every reachable state a job has at most one RUNNING run. */
  lemma OneRunPerJob(defs: Definitions, steps: seq<Step>, i: nat, k: nat)
    requires ValidDefinitions(defs)
    requires var t := Run(defs, EMPTY, steps).tables;
      && i < |t.runs| && k < |t.runs| && t.runs[i].job == t.runs[k].job
      && t.runs[i].status == RUNNING && t.runs[k].status == RUNNING
    ensures i == k
  {
    RunSound(defs, EMPTY, steps);
  }

  /** The lock names a worker exactly when that worker owns the job's RUNNING run. */
  lemma LockNamesTheRunner(defs: Definitions, steps: seq<Step>, name: string, worker: string)
    requires ValidDefinitions(defs)
    requires name in Run(defs, EMPTY, steps).tables.jobs
    ensures var t := Run(defs, EMPTY, steps).tables;
      t.jobs[name].lockedBy == Some(worker) <==>
      exists i | 0 <= i < |t.runs| :: IsRunning(t.runs[i], name) && t.runs[i].worker == worker
  {
    RunSound(defs, EMPTY, steps);
    var t := Run(defs, EMPTY, steps).tables;
    if t.jobs[name].lockedBy == Some(worker) {
      var i :| 0 <= i < |t.runs| && IsRunning(t.runs[i], name);
      assert t.runs[i].worker == worker;
    }
  }

  /** A worker that lost its lease still records its run, but the job row is not its to touch. */
  lemma LateFinishIsHarmless(
    defs: Definitions, steps: seq<Step>, worker: string, now: Time, failure: Option<Failure>)
    requires ValidDefinitions(defs)
    requires var s := Run(defs, EMPTY, steps);
      CanFinish(defs, s, worker) && !HoldsLease(s.tables, worker, s.claims[worker])
    ensures var s := Run(defs, EMPTY, steps);
      var after := Execute(defs, s, Finish(worker, now, failure));
      && after.tables.jobs == s.tables.jobs
      && s.tables.runs[s.claims[worker].run].status != RUNNING
      && forall i | 0 <= i < |s.tables.runs| && i != s.claims[worker].run ::
          after.tables.runs[i] == s.tables.runs[i]
  {
    RunSound(defs, EMPTY, steps);
  }

  /** Claims can always be recorded: no run ever repeats a job's slot and attempt. */
  lemma ClaimNeverCollides(defs: Definitions, steps: seq<Step>, name: string)
    requires ValidDefinitions(defs)
    requires name in Run(defs, EMPTY, steps).tables.jobs
    ensures var t := Run(defs, EMPTY, steps).tables;
      SlotAttemptFree(t.runs, name, t.jobs[name].slot, t.jobs[name].attempt + 1)
  {
    RunSound(defs, EMPTY, steps);
  }

  // --- progress --------------------------------------------------------------------

  /**
   * A job's slot never moves back, and it moves only when the worker holding the
   * lease finishes its RUNNING run of that very slot with success or out of
   * attempts; the new slot then lies after the old one and after the clock.
   */
  lemma SlotMovesOnlyForward(defs: Definitions, steps: seq<Step>, step: Step, name: string)
    requires ValidDefinitions(defs)
    requires name in Run(defs, EMPTY, steps).tables.jobs
    ensures var s := Run(defs, EMPTY, steps);
      var after := Execute(defs, s, step);
      && name in after.tables.jobs
      && (after.tables.jobs[name].slot == s.tables.jobs[name].slot ||
          (&& step.Finish? && CanFinish(defs, s, step.worker)
           && var c := s.claims[step.worker];
           && c.job == name && c.slot == s.tables.jobs[name].slot && c.attempt == s.tables.jobs[name].attempt
           && s.tables.jobs[name].lockedBy == Some(step.worker)
           && s.tables.runs[c.run].status == RUNNING
           && Concludes(defs[name], c.attempt, step.failure)
           && s.tables.jobs[name].slot < after.tables.jobs[name].slot
           && step.now < after.tables.jobs[name].slot
           && after.tables.jobs[name].attempt == 0))
  {
    RunSound(defs, EMPTY, steps);
    var s := Run(defs, EMPTY, steps);
    if step.Finish? && CanFinish(defs, s, step.worker) {
      var c := s.claims[step.worker];
      NextSlotAdvances(defs[c.job].schedule, c.slot, step.now);
    }
  }

  /** Runs of one job are claimed in strictly increasing (slot, attempt) order. */
  lemma ClaimsAdvance(defs: Definitions, steps: seq<Step>, i: nat, k: nat)
    requires ValidDefinitions(defs)
    requires var t := Run(defs, EMPTY, steps).tables;
      i < k < |t.runs| && t.runs[i].job == t.runs[k].job
    ensures var t := Run(defs, EMPTY, steps).tables;
      Before(t.runs[i].slot, t.runs[i].attempt, t.runs[k].slot, t.runs[k].attempt)
  {
    RunSound(defs, EMPTY, steps);
  }

  /** No slot is dropped: once a job has moved past a slot it ran, some run of it succeeded or used the last attempt. */
  lemma NoSlotDropped(defs: Definitions, steps: seq<Step>, i: nat)
    requires ValidDefinitions(defs)
    requires var t := Run(defs, EMPTY, steps).tables;
      i < |t.runs| && t.runs[i].job in t.jobs && t.runs[i].slot < t.jobs[t.runs[i].job].slot
    ensures var s := Run(defs, EMPTY, steps);
      SlotConcluded(defs, s, s.tables.runs[i].job, s.tables.runs[i].slot)
  {
    RunSound(defs, EMPTY, steps);
  }

  /** Beyond maxAttempts only takeovers go: claiming an unlocked job never starts an attempt past the limit. */
  lemma OnlyTakeoversExceedTheLimit(
    defs: Definitions, steps: seq<Step>, worker: string, name: string, now: Time, leaseMs: int)
    requires ValidDefinitions(defs)
    requires var s := Run(defs, EMPTY, steps);
      name in defs && CanClaim(s, worker, name, now) && s.tables.jobs[name].lockedBy.None?
    ensures var s := Run(defs, EMPTY, steps);
      var after := Execute(defs, s, TryClaim(worker, name, now, leaseMs));
      var run := after.tables.runs[after.claims[worker].run];
      run.attempt == 1 || run.attempt <= defs[name].maxAttempts
  {
    RunSound(defs, EMPTY, steps);
  }
}
