/** The scheduler's two tables and what each of its transactions does to them. */
module JobTables {
  import opened Common
  import opened Schedule

  datatype RunStatus = RUNNING | SUCCEEDED | FAILED

  datatype Job = Job(
    intervalSeconds: int,
    slot: Time,
    nextRunAt: Time,
    attempt: nat,
    lockedBy: Option<string>,
    lockedUntil: Option<Time>,
    lastStartedAt: Option<Time>,
    lastFinishedAt: Option<Time>,
    lastStatus: Option<RunStatus>,
    consecutiveFailures: nat)

  datatype JobRun = JobRun(
    job: string, slot: Time, attempt: nat, worker: string, status: RunStatus,
    startedAt: Time, finishedAt: Option<Time>, error: Option<string>)

  /** Runs are only added, so a run's identity is its index. */
  datatype Tables = Tables(jobs: map<string, Job>, runs: seq<JobRun>)

  datatype Definition = Definition(schedule: JobSchedule, maxAttempts: nat)

  datatype Claim = Claim(job: string, slot: Time, attempt: nat, run: nat)

  /** How a run ended, when it did not succeed. */
  datatype Failure = Timeout | Thrown(name: string)

  /** What a claim looks for: the job's time has come and no lease is in force. */
  predicate Due(job: Job, now: Time) {
    job.nextRunAt <= now && (job.lockedUntil.None? || job.lockedUntil.value < now)
  }

  predicate IsRunning(run: JobRun, name: string) {
    run.job == name && run.status == RUNNING
  }

  function ExpireRun(run: JobRun, name: string, now: Time): JobRun {
    if IsRunning(run, name)
    then run.(status := FAILED, finishedAt := Some(now), error := Some("lease_expired"))
    else run
  }

  function ExpireRuns(runs: seq<JobRun>, name: string, now: Time): seq<JobRun> {
    seq(|runs|, i requires 0 <= i < |runs| => ExpireRun(runs[i], name, now))
  }

  /** The unique index on (job, slot, attempt). */
  predicate SlotAttemptFree(runs: seq<JobRun>, name: string, slot: Time, attempt: nat) {
    forall i | 0 <= i < |runs| :: !(runs[i].job == name && runs[i].slot == slot && runs[i].attempt == attempt)
  }

  function RegisterJob(t: Tables, name: string, d: Definition, now: Time): Tables
    requires d.schedule.Valid()
  {
    var first := SlotAtOrAfter(d.schedule, now);
    if name in t.jobs then t.(jobs := t.jobs[name := t.jobs[name].(intervalSeconds := d.schedule.everySeconds)])
    else t.(jobs := t.jobs[name := Job(d.schedule.everySeconds, first, first, 0, None, None, None, None, None, 0)])
  }

  function ClaimOf(t: Tables, name: string): Claim
    requires name in t.jobs
  {
    Claim(name, t.jobs[name].slot, t.jobs[name].attempt + 1, |t.runs|)
  }

  function ClaimJob(t: Tables, worker: string, name: string, now: Time, leaseMs: int): Tables
    requires name in t.jobs
  {
    var job := t.jobs[name];
    Tables(
      t.jobs[name := job.(
        attempt := job.attempt + 1,
        lockedBy := Some(worker),
        lockedUntil := Some(now + leaseMs),
        lastStartedAt := Some(now))],
      ExpireRuns(t.runs, name, now)
        + [JobRun(name, job.slot, job.attempt + 1, worker, RUNNING, now, None, None)])
  }

  function RenewLease(t: Tables, worker: string, name: string, now: Time, leaseMs: int): Tables {
    if name in t.jobs && t.jobs[name].lockedBy == Some(worker)
    then t.(jobs := t.jobs[name := t.jobs[name].(lockedUntil := Some(now + leaseMs))])
    else t
  }

  /** The slot is over: the run succeeded, or no attempt is left. */
  predicate Concludes(d: Definition, attempt: nat, failure: Option<Failure>) {
    failure.None? || d.maxAttempts <= attempt
  }

  /** The worker still holds the lease on the slot it ran. */
  predicate HoldsLease(t: Tables, worker: string, c: Claim) {
    c.job in t.jobs && t.jobs[c.job].lockedBy == Some(worker) && t.jobs[c.job].slot == c.slot
  }

  function ReleasedJob(job: Job, d: Definition, c: Claim, now: Time, failure: Option<Failure>): Job
    requires d.schedule.Valid()
  {
    var following := NextSlot(d.schedule, c.slot, now);
    var released := job.(
      lockedBy := None,
      lockedUntil := None,
      lastFinishedAt := Some(now),
      lastStatus := Some(if failure.None? then SUCCEEDED else FAILED),
      consecutiveFailures := if failure.None? then 0 else job.consecutiveFailures + 1);
    if Concludes(d, c.attempt, failure) then released.(slot := following, nextRunAt := following, attempt := 0)
    else released.(nextRunAt := now + RetryDelayMs(c.attempt))
  }

  function ErrorOf(failure: Option<Failure>): Option<string> {
    match failure
    case None => None
    case Some(Timeout) => Some("timeout")
    case Some(Thrown(name)) => Some(if name == "" then "error" else name)
  }

  function FinishRun(t: Tables, worker: string, d: Definition, c: Claim, now: Time, failure: Option<Failure>): Tables
    requires d.schedule.Valid() && c.run < |t.runs|
  {
    Tables(
      if HoldsLease(t, worker, c)
      then t.jobs[c.job := ReleasedJob(t.jobs[c.job], d, c, now, failure)]
      else t.jobs,
      t.runs[c.run := t.runs[c.run].(
        status := if failure.None? then SUCCEEDED else FAILED, finishedAt := Some(now), error := ErrorOf(failure))])
  }
}
