/**
  The queue of plan generation jobs: claim, process, and the recovery of jobs whose worker died.
  Identifiers and instants are numbers; the outcome of processing is arbitrary.
 */
module GenerationJobs {
  import opened Wrappers
  import opened Collections
  import opened Sums

  datatype Status = Queued | CollectingData | GeneratingCandidates | Validating | Optimizing | Completed | Failed | Cancelled

  datatype Job = Job(
    status: Status, attempts: nat, maxAttempts: nat, priority: int, runAfter: Option<int>,
    lockedBy: Option<nat>, lockedAt: Option<int>, heartbeat: Option<int>, runId: Option<nat>, planId: Option<nat>)

  datatype RunStatus = RunQueued | RunInProgress(stage: Status) | RunCompleted | RunFailed

  datatype Run = Run(status: RunStatus, planId: nat)

  datatype PlanStatus = Generating | Ready | PlanFailed

  type Jobs = map<nat, Job>
  type Runs = map<nat, Run>
  type Plans = map<nat, PlanStatus>

  predicate InProgress(job: Job) {
    job.status.CollectingData? || job.status.GeneratingCandidates? || job.status.Validating? || job.status.Optimizing?
  }

  predicate Terminal(job: Job) {
    job.status.Completed? || job.status.Failed? || job.status.Cancelled?
  }

  /** How processing a claimed job may end. */
  datatype Outcome = PreflightFailed | PlanFound | Infeasible | Raised

  // ----- Invariants -----------------------------------------------------------------------------

  /** The attempts of a job, and how often it was claimed. */
  ghost predicate Counted(job: Job, claims: nat) {
    && job.attempts <= job.maxAttempts
    && (job.status.Queued? ==> job.attempts < job.maxAttempts && claims == job.attempts)
    && (InProgress(job) ==> job.attempts < job.maxAttempts && claims == job.attempts + 1)
    && claims <= job.maxAttempts
  }

  ghost predicate AllCounted(jobs: Jobs, claims: map<nat, nat>) {
    forall id :: id in jobs ==> id in claims && Counted(jobs[id], claims[id])
  }

  /** Every job has a run of its own, which belongs to the job's plan. */
  ghost predicate Linked(jobs: Jobs, runs: Runs, plans: Plans) {
    && (forall id :: id in jobs && jobs[id].runId.Some? ==>
          && jobs[id].runId.value in runs
          && runs[jobs[id].runId.value].planId in plans
          && jobs[id].planId == Some(runs[jobs[id].runId.value].planId))
    && (forall a, b :: a in jobs && b in jobs && jobs[a].runId.Some? && jobs[a].runId == jobs[b].runId ==> a == b)
  }

  /** What a finished job says about its run. */
  ghost predicate Settled(job: Job, runs: Runs) {
    job.runId.Some? && job.runId.value in runs ==>
      && (job.status.Completed? ==> runs[job.runId.value].status.RunCompleted?)
      && (job.status.Failed? ==> runs[job.runId.value].status.RunFailed?)
  }

  ghost predicate AllSettled(jobs: Jobs, runs: Runs) {
    forall id :: id in jobs ==> Settled(jobs[id], runs)
  }

  /** A finished job never changes again. */
  ghost predicate TerminalKept(before: Jobs, after: Jobs) {
    forall id :: id in before ==> id in after && (Terminal(before[id]) ==> after[id] == before[id])
  }

  // ----- The claim order ------------------------------------------------------------------------

  predicate Runnable(job: Job, now: int) {
    job.status.Queued? && (job.runAfter.None? || job.runAfter.value <= now)
  }

  /** Higher priority first, then the lower identifier. */
  predicate ClaimedBefore(jobs: Jobs, a: nat, b: nat)
    requires a in jobs && b in jobs
  {
    jobs[a].priority > jobs[b].priority || (jobs[a].priority == jobs[b].priority && a < b)
  }

  ghost predicate IsNext(jobs: Jobs, now: int, id: nat) {
    && id in jobs && Runnable(jobs[id], now)
    && forall other :: other in jobs && Runnable(jobs[other], now) && other != id ==> ClaimedBefore(jobs, id, other)
  }

  method NextJob(jobs: Jobs, now: int) returns (next: Option<nat>)
    ensures next.None? ==> forall id :: id in jobs ==> !Runnable(jobs[id], now)
    ensures next.Some? ==> IsNext(jobs, now, next.value)
  {
    next := None;
    var todo := jobs.Keys;
    while todo != {}
      invariant todo <= jobs.Keys
      invariant next.None? ==> forall id :: id in jobs && id !in todo ==> !Runnable(jobs[id], now)
      invariant next.Some? ==> next.value in jobs && Runnable(jobs[next.value], now)
      invariant next.Some? ==> forall id :: id in jobs && id !in todo && Runnable(jobs[id], now) && id != next.value ==>
        ClaimedBefore(jobs, next.value, id)
    {
      var id :| id in todo;
      if Runnable(jobs[id], now) && (next.None? || ClaimedBefore(jobs, id, next.value)) {
        next := Some(id);
      }
      todo := todo - {id};
    }
  }

  // ----- What the steps do to one job -----------------------------------------------------------

  function Claimed(job: Job, worker: nat, now: int): Job {
    job.(status := CollectingData, lockedAt := Some(now), lockedBy := Some(worker), heartbeat := Some(now))
  }

  /** A failed attempt: back to the queue, or failed when the attempts are used up. */
  function Retried(job: Job, now: int, delay: nat): Job {
    var next := job.(attempts := job.attempts + 1, lockedAt := None, lockedBy := None, heartbeat := Some(now));
    if next.attempts >= next.maxAttempts then next.(status := Failed)
    else next.(status := Queued, runAfter := Some(now + delay))
  }

  /** A job taken back from a dead worker counts as a failed attempt. */
  function Reaped(job: Job): Job {
    var next := job.(attempts := job.attempts + 1, lockedAt := None, lockedBy := None, heartbeat := None);
    if next.attempts >= next.maxAttempts then next.(status := Failed) else next.(status := Queued, runAfter := None)
  }

  predicate Abandoned(job: Job, cutoff: int) {
    InProgress(job) && (job.heartbeat.None? || job.heartbeat.value < cutoff)
  }

  predicate Exhausted(job: Job) {
    job.status.Failed? && job.attempts >= job.maxAttempts
  }

  function Power(n: nat): nat {
    if n == 0 then 1 else 2 * Power(n - 1)
  }

  /** The delay before the next attempt, doubling and capped at 300 seconds. */
  function Backoff(pollSeconds: nat, attempts: nat): (seconds: nat)
    ensures seconds <= 300
  {
    if pollSeconds * Power(attempts) < 300 then pollSeconds * Power(attempts) else 300
  }

  lemma {:induction false} PowerGrows(a: nat, b: nat)
    requires a <= b
    ensures Power(a) <= Power(b)
  {
    if a < b {
      PowerGrows(a, b - 1);
    }
  }

  /** A later attempt never waits less. */
  /** The delay doubles with every attempt, up to 300 seconds. */
  lemma {:induction false} BackoffDoubles(pollSeconds: nat, attempts: nat)
    ensures Backoff(pollSeconds, 0) == if pollSeconds < 300 then pollSeconds else 300
    ensures Backoff(pollSeconds, attempts + 1) ==
      if 2 * Backoff(pollSeconds, attempts) < 300 then 2 * Backoff(pollSeconds, attempts) else 300
  {
    var p := pollSeconds * Power(attempts);
    assert pollSeconds * Power(attempts + 1) == 2 * p;
  }

  /** A job given back is runnable again after its delay, and not before. */
  lemma {:induction false} RetryWaits(job: Job, now: int, delay: nat, t: int)
    requires job.attempts + 1 < job.maxAttempts
    ensures Runnable(Retried(job, now, delay), t) <==> now + delay <= t
  {
  }

  lemma {:induction false} BackoffGrows(pollSeconds: nat, a: nat, b: nat)
    requires a <= b
    ensures Backoff(pollSeconds, a) <= Backoff(pollSeconds, b)
  {
    PowerGrows(a, b);
    assert pollSeconds * Power(a) <= pollSeconds * Power(b);
  }

  // ----- The queue ------------------------------------------------------------------------------

  class Queue {
    var jobs: Jobs
    var runs: Runs
    var plans: Plans
    /** How often each job was claimed. */
    ghost var claims: map<nat, nat>

    ghost predicate Valid()
      reads this
    {
      AllCounted(jobs, claims) && Linked(jobs, runs, plans) && AllSettled(jobs, runs)
    }

    constructor (jobs: Jobs, runs: Runs, plans: Plans)
      requires forall id :: id in jobs ==> jobs[id].status.Queued? && jobs[id].attempts == 0 < jobs[id].maxAttempts
      requires Linked(jobs, runs, plans)
      ensures Valid() && this.jobs == jobs && this.runs == runs && this.plans == plans
      ensures claims == map id | id in jobs :: 0
    {
      this.jobs, this.runs, this.plans := jobs, runs, plans;
      claims := map id | id in jobs :: 0;
    }

    /** `claim_job`. */
    method Claim(worker: nat, now: int) returns (id: Option<nat>)
      requires Valid()
      modifies this
      ensures Valid() && runs == old(runs) && plans == old(plans)
      ensures id.None? ==> jobs == old(jobs) && claims == old(claims)
      ensures id.None? ==> forall j :: j in jobs ==> !Runnable(jobs[j], now)
      ensures id.Some? ==>
        && IsNext(old(jobs), now, id.value)
        && jobs == old(jobs)[id.value := Claimed(old(jobs)[id.value], worker, now)]
        && claims == old(claims)[id.value := old(claims)[id.value] + 1]
      ensures TerminalKept(old(jobs), jobs)
    {
      id := NextJob(jobs, now);
      if id.Some? {
        jobs := jobs[id.value := Claimed(jobs[id.value], worker, now)];
        claims := claims[id.value := claims[id.value] + 1];
      }
    }

    /** `_transition`. */
    method SetStage(id: nat, stage: Status, now: int, ghost jobs0: Jobs, ghost runs0: Runs)
      requires Valid() && id in jobs && InProgress(jobs[id]) && jobs[id].runId.Some?
      requires stage in {CollectingData, GeneratingCandidates, Validating, Optimizing}
      requires Touched(jobs0, runs0, jobs, runs, id)
      modifies this
      ensures Valid() && plans == old(plans) && claims == old(claims)
      ensures id in jobs && jobs[id] == old(jobs)[id].(status := stage, heartbeat := Some(now))
      ensures Touched(jobs0, runs0, jobs, runs, id)
    {
      var r := jobs[id].runId.value;
      SetRun(jobs, runs, plans, id, jobs[id].(status := stage, heartbeat := Some(now)), RunInProgress(stage));
      runs := runs[r := runs[r].(status := RunInProgress(stage))];
      jobs := jobs[id := jobs[id].(status := stage, heartbeat := Some(now))];
    }

    /** The job ends, with its run and plan. */
    method Finish(id: nat, ok: bool, now: int, ghost jobs0: Jobs, ghost runs0: Runs)
      requires Valid() && id in jobs && InProgress(jobs[id]) && jobs[id].runId.Some?
      requires Touched(jobs0, runs0, jobs, runs, id)
      modifies this
      ensures Valid() && claims == old(claims)
      ensures Ended(jobs0, runs0, old(plans), jobs, runs, plans, id, ok, now)
    {
      var r := jobs[id].runId.value;
      var status, run := if ok then Completed else Failed, if ok then RunCompleted else RunFailed;
      SetRun(jobs, runs, plans, id, jobs[id].(status := status, heartbeat := Some(now)), run);
      plans := plans[runs[r].planId := if ok then Ready else PlanFailed];
      runs := runs[r := runs[r].(status := run)];
      jobs := jobs[id := jobs[id].(status := status, heartbeat := Some(now))];
    }

    /** `_handle_failure`: an exception counts as an attempt; the last one fails the run and the plan. */
    method HandleFailure(id: nat, now: int, delay: nat)
      requires Valid() && id in jobs && InProgress(jobs[id]) && jobs[id].runId.Some?
      modifies this
      ensures Valid() && claims == old(claims)
      ensures jobs == old(jobs)[id := Retried(old(jobs)[id], now, delay)]
      ensures var r, failed := old(jobs)[id].runId.value, Exhausted(jobs[id]);
        && runs == old(runs)[r := old(runs)[r].(status := if failed then RunFailed else RunQueued)]
        && plans == if failed then old(plans)[old(runs)[r].planId := PlanFailed] else old(plans)
    {
      var r, job := jobs[id].runId.value, Retried(jobs[id], now, delay);
      SetRun(jobs, runs, plans, id, job, if job.status.Failed? then RunFailed else RunQueued);
      if job.status.Failed? {
        plans := plans[runs[r].planId := PlanFailed];
        runs := runs[r := runs[r].(status := RunFailed)];
      } else {
        runs := runs[r := runs[r].(status := RunQueued)];
      }
      jobs := jobs[id := job];
    }

    /** The stages up to the optimizer. */
    method Optimize(id: nat, now: int, ghost jobs0: Jobs, ghost runs0: Runs)
      requires Valid() && id in jobs && InProgress(jobs[id]) && jobs[id].runId.Some?
      requires Touched(jobs0, runs0, jobs, runs, id)
      modifies this
      ensures Valid() && plans == old(plans) && claims == old(claims)
      ensures id in jobs && InProgress(jobs[id]) && jobs[id].runId.Some?
      ensures Touched(jobs0, runs0, jobs, runs, id)
    {
      SetStage(id, GeneratingCandidates, now, jobs0, runs0);
      SetStage(id, Validating, now, jobs0, runs0);
      SetStage(id, Optimizing, now, jobs0, runs0);
    }

    /** `_execute` inside its savepoint: nothing of it survives an exception. */
    method Execute(id: nat, outcome: Outcome, now: int) returns (raised: bool)
      requires Valid() && id in jobs && InProgress(jobs[id]) && jobs[id].runId.Some?
      modifies this
      ensures Valid() && claims == old(claims)
      ensures raised <==> outcome.Raised?
      ensures raised ==> jobs == old(jobs) && runs == old(runs) && plans == old(plans)
      ensures !raised ==> Ended(old(jobs), old(runs), old(plans), jobs, runs, plans, id, outcome.PlanFound?, now)
    {
      var savedJobs, savedRuns := jobs, runs;
      TouchedNothing(jobs, runs, id);
      SetStage(id, CollectingData, now, savedJobs, savedRuns);
      if outcome.PreflightFailed? {
        Finish(id, false, now, savedJobs, savedRuns);
        return false;
      }
      Optimize(id, now, savedJobs, savedRuns);
      if outcome.Raised? {
        jobs, runs := savedJobs, savedRuns;
        return true;
      }
      Finish(id, outcome.PlanFound?, now, savedJobs, savedRuns);
      return false;
    }

    /** `process_job` on a job its worker has claimed. */
    method Process(id: nat, outcome: Outcome, now: int, pollSeconds: nat)
      requires Valid() && id in jobs && InProgress(jobs[id])
      modifies this
      ensures Valid() && claims == old(claims)
      ensures Processed(old(jobs), old(runs), old(plans), jobs, runs, plans, id, outcome, now, pollSeconds)
    {
      if jobs[id].runId.None? {
        jobs := jobs[id := jobs[id].(status := Failed)];
        return;
      }
      var raised := Execute(id, outcome, now);
      if raised {
        HandleFailure(id, now, Backoff(pollSeconds, jobs[id].attempts + 1));
      }
    }

    /** One abandoned job of `recover_abandoned_jobs`. */
    method Reap(id: nat)
      requires Valid() && id in jobs && InProgress(jobs[id])
      modifies this
      ensures Valid() && claims == old(claims)
      ensures jobs == old(jobs)[id := Reaped(old(jobs)[id])]
      ensures !Exhausted(jobs[id]) ==> runs == old(runs) && plans == old(plans)
      ensures Exhausted(jobs[id]) ==>
        && runs == (if jobs[id].runId.None? then old(runs)
                    else old(runs)[jobs[id].runId.value := old(runs)[jobs[id].runId.value].(status := RunFailed)])
        && plans == (if jobs[id].planId.None? || jobs[id].planId.value !in old(plans) then old(plans)
                     else old(plans)[jobs[id].planId.value := PlanFailed])
    {
      var job := Reaped(jobs[id]);
      if job.status.Failed? {
        if job.runId.Some? {
          SetRun(jobs, runs, plans, id, job, RunFailed);
          runs := runs[job.runId.value := runs[job.runId.value].(status := RunFailed)];
        }
        if job.planId.Some? && job.planId.value in plans {
          plans := plans[job.planId.value := PlanFailed];
        }
      }
      jobs := jobs[id := job];
    }

    /** `recover_abandoned_jobs`: every job in progress whose heartbeat is older than the timeout is taken back. */
    method Recover(now: int, timeout: nat) returns (count: nat)
      requires Valid()
      modifies this
      ensures Valid() && claims == old(claims)
      ensures Recovered(old(jobs), jobs, now - timeout, {})
      ensures FailsWith(old(jobs), jobs, old(runs), old(plans), runs, plans)
      ensures TerminalKept(old(jobs), jobs)
    {
      count := 0;
      var todo := jobs.Keys;
      RecoveryStarts(jobs, runs, plans, now - timeout);
      while todo != {}
        invariant Valid() && claims == old(claims) && todo <= jobs.Keys
        invariant Recovered(old(jobs), jobs, now - timeout, todo)
        invariant FailsWith(old(jobs), jobs, old(runs), old(plans), runs, plans)
      {
        var id :| id in todo;
        var taken := RecoverOne(id, now - timeout, todo, old(jobs), old(runs), old(plans));
        count := count + if taken then 1 else 0;
        todo := todo - {id};
      }
    }

    /** One job of the recovery: taken back if it is abandoned. */
    method RecoverOne(id: nat, cutoff: int, ghost todo: set<nat>, ghost jobs0: Jobs, ghost runs0: Runs, ghost plans0: Plans) returns (taken: bool)
      requires Valid() && id in jobs && id in todo
      requires Recovered(jobs0, jobs, cutoff, todo) && FailsWith(jobs0, jobs, runs0, plans0, runs, plans)
      modifies this
      ensures Valid() && claims == old(claims) && jobs.Keys == old(jobs).Keys
      ensures Recovered(jobs0, jobs, cutoff, todo - {id}) && FailsWith(jobs0, jobs, runs0, plans0, runs, plans)
    {
      taken := Abandoned(jobs[id], cutoff);
      if taken {
        ghost var before, runs1, plans1 := jobs, runs, plans;
        Reap(id);
        FailsWithStep(jobs0, before, runs0, plans0, runs1, plans1, jobs, runs, plans, id);
      }
    }
  }

  lemma {:induction false} RecoveryStarts(jobs: Jobs, runs: Runs, plans: Plans, cutoff: int)
    ensures Recovered(jobs, jobs, cutoff, jobs.Keys) && FailsWith(jobs, jobs, runs, plans, runs, plans)
  {
  }

  /** Only the status and heartbeat of the job and the status of its run differ. */
  ghost predicate Touched(jobs: Jobs, runs: Runs, jobs': Jobs, runs': Runs, id: nat) {
    && id in jobs && id in jobs' && jobs[id].runId.Some?
    && var r := jobs[id].runId.value;
       && r in runs && r in runs'
       && jobs' == jobs[id := jobs[id].(status := jobs'[id].status, heartbeat := jobs'[id].heartbeat)]
       && runs' == runs[r := runs[r].(status := runs'[r].status)]
  }

  lemma {:induction false} TouchedNothing(jobs: Jobs, runs: Runs, id: nat)
    requires id in jobs && jobs[id].runId.Some? && jobs[id].runId.value in runs
    ensures Touched(jobs, runs, jobs, runs, id)
  {
    assert jobs == jobs[id := jobs[id]];
    assert runs == runs[jobs[id].runId.value := runs[jobs[id].runId.value]];
  }

  /** What a processed job and its run and plan are when the processing did not raise. */
  ghost predicate Ended(jobs: Jobs, runs: Runs, plans: Plans, jobs': Jobs, runs': Runs, plans': Plans, id: nat, ok: bool, now: int)
    requires id in jobs && jobs[id].runId.Some? && jobs[id].runId.value in runs
  {
    var r := jobs[id].runId.value;
    && jobs' == jobs[id := jobs[id].(status := if ok then Completed else Failed, heartbeat := Some(now))]
    && runs' == runs[r := runs[r].(status := if ok then RunCompleted else RunFailed)]
    && plans' == plans[runs[r].planId := if ok then Ready else PlanFailed]
  }

  ghost predicate Processed(jobs: Jobs, runs: Runs, plans: Plans, jobs': Jobs, runs': Runs, plans': Plans, id: nat, outcome: Outcome,
                            now: int, pollSeconds: nat)
    requires Linked(jobs, runs, plans) && id in jobs
  {
    if jobs[id].runId.None? then
      jobs' == jobs[id := jobs[id].(status := Failed)] && runs' == runs && plans' == plans
    else if outcome.Raised? then
      var r := jobs[id].runId.value;
      var failed := jobs[id].attempts + 1 >= jobs[id].maxAttempts;
      && jobs' == jobs[id := Retried(jobs[id], now, Backoff(pollSeconds, jobs[id].attempts + 1))]
      && runs' == runs[r := runs[r].(status := if failed then RunFailed else RunQueued)]
      && plans' == (if failed then plans[runs[r].planId := PlanFailed] else plans)
    else
      Ended(jobs, runs, plans, jobs', runs', plans', id, outcome.PlanFound?, now)
  }

  /** The abandoned jobs, except those still to do, are taken back; all others are as before. */
  ghost predicate Recovered(before: Jobs, after: Jobs, cutoff: int, todo: set<nat>) {
    && after.Keys == before.Keys
    && forall id :: id in before ==>
         after[id] == if Abandoned(before[id], cutoff) && id !in todo then Reaped(before[id]) else before[id]
  }

  /** The job was failed by exhaustion in between. */
  predicate IsExhausted(before: Jobs, after: Jobs, id: nat) {
    id in before && id in after && !Terminal(before[id]) && Exhausted(after[id])
  }

  ghost predicate RunFails(before: Jobs, after: Jobs, run: nat) {
    exists id :: IsExhausted(before, after, id) && after[id].runId == Some(run)
  }

  ghost predicate PlanFails(before: Jobs, after: Jobs, plan: nat) {
    exists id :: IsExhausted(before, after, id) && after[id].planId == Some(plan)
  }

  /** Exactly the runs and plans of the jobs that were failed by exhaustion are failed, and nothing else about them changes. */
  ghost predicate FailsWith(before: Jobs, after: Jobs, runs: Runs, plans: Plans, runs': Runs, plans': Plans) {
    && (forall r :: r in runs <==> r in runs') && (forall p :: p in plans <==> p in plans')
    && (forall r :: r in runs ==> runs'[r] == if RunFails(before, after, r) then runs[r].(status := RunFailed) else runs[r])
    && (forall p :: p in plans ==> plans'[p] == if PlanFails(before, after, p) then PlanFailed else plans[p])
  }

  lemma {:induction false} FailsWithStep(before: Jobs, jobs: Jobs, runs0: Runs, plans0: Plans, runs: Runs, plans: Plans,
                                         jobs': Jobs, runs': Runs, plans': Plans, id: nat)
    requires FailsWith(before, jobs, runs0, plans0, runs, plans)
    requires id in before && id in jobs && jobs[id] == before[id] && !Terminal(jobs[id]) && jobs' == jobs[id := Reaped(jobs[id])]
    requires Linked(jobs, runs, plans)
    requires !Exhausted(jobs'[id]) ==> runs' == runs && plans' == plans
    requires Exhausted(jobs'[id]) ==>
      && runs' == (if jobs'[id].runId.None? then runs
                   else runs[jobs'[id].runId.value := runs[jobs'[id].runId.value].(status := RunFailed)])
      && plans' == (if jobs'[id].planId.None? || jobs'[id].planId.value !in plans then plans
                    else plans[jobs'[id].planId.value := PlanFailed])
    ensures FailsWith(before, jobs', runs0, plans0, runs', plans')
  {
    forall r: nat ensures RunFails(before, jobs', r) <==> RunFails(before, jobs, r) || (Exhausted(jobs'[id]) && jobs'[id].runId == Some(r)) {
      RunFailsStep(before, jobs, jobs', id, r);
    }
    forall p: nat ensures PlanFails(before, jobs', p) <==> PlanFails(before, jobs, p) || (Exhausted(jobs'[id]) && jobs'[id].planId == Some(p)) {
      PlanFailsStep(before, jobs, jobs', id, p);
    }
  }

  lemma {:induction false} RunFailsStep(before: Jobs, jobs: Jobs, jobs': Jobs, id: nat, r: nat)
    requires id in before && id in jobs && jobs[id] == before[id] && !Terminal(jobs[id]) && jobs' == jobs[id := Reaped(jobs[id])]
    ensures RunFails(before, jobs', r) <==> RunFails(before, jobs, r) || (Exhausted(jobs'[id]) && jobs'[id].runId == Some(r))
  {
    if RunFails(before, jobs, r) {
      var j :| IsExhausted(before, jobs, j) && jobs[j].runId == Some(r);
      assert IsExhausted(before, jobs', j) && jobs'[j].runId == Some(r);
    }
    if Exhausted(jobs'[id]) && jobs'[id].runId == Some(r) {
      assert IsExhausted(before, jobs', id);
    }
    if RunFails(before, jobs', r) {
      var j :| IsExhausted(before, jobs', j) && jobs'[j].runId == Some(r);
      assert j != id ==> IsExhausted(before, jobs, j);
    }
  }

  lemma {:induction false} PlanFailsStep(before: Jobs, jobs: Jobs, jobs': Jobs, id: nat, p: nat)
    requires id in before && id in jobs && jobs[id] == before[id] && !Terminal(jobs[id]) && jobs' == jobs[id := Reaped(jobs[id])]
    ensures PlanFails(before, jobs', p) <==> PlanFails(before, jobs, p) || (Exhausted(jobs'[id]) && jobs'[id].planId == Some(p))
  {
    if PlanFails(before, jobs, p) {
      var j :| IsExhausted(before, jobs, j) && jobs[j].planId == Some(p);
      assert IsExhausted(before, jobs', j) && jobs'[j].planId == Some(p);
    }
    if Exhausted(jobs'[id]) && jobs'[id].planId == Some(p) {
      assert IsExhausted(before, jobs', id);
    }
    if PlanFails(before, jobs', p) {
      var j :| IsExhausted(before, jobs', j) && jobs'[j].planId == Some(p);
      assert j != id ==> IsExhausted(before, jobs, j);
    }
  }

  /** Changing one job together with its run keeps every other job settled. */
  lemma {:induction false} SetRun(jobs: Jobs, runs: Runs, plans: Plans, id: nat, job: Job, status: RunStatus)
    requires Linked(jobs, runs, plans) && AllSettled(jobs, runs) && id in jobs && jobs[id].runId.Some?
    requires job.runId == jobs[id].runId && job.planId == jobs[id].planId
    requires (job.status.Completed? ==> status.RunCompleted?) && (job.status.Failed? ==> status.RunFailed?)
    ensures var r := job.runId.value;
      var runs' := runs[r := runs[r].(status := status)];
      Linked(jobs[id := job], runs', plans) && AllSettled(jobs[id := job], runs')
  {
    var r := job.runId.value;
    var jobs', runs' := jobs[id := job], runs[r := runs[r].(status := status)];
    forall j | j in jobs' ensures Settled(jobs'[j], runs') {
      assert j != id ==> Settled(jobs[j], runs) && jobs[j].runId != Some(r);
    }
  }
}
