/**
  The durable queue of crawl jobs: idempotent enqueue, claims under a limit per retailer, retries, dead
  letters and recovery.  Each operation is one atomic step.
 */
module CrawlQueue {
  import opened Wrappers
  import opened Collections

  datatype JobStatus = Queued | Locked | Completed | DeadLetter | Cancelled

  /** The unit of work of a scheduled job. */
  datatype Key = Key(slug: string, store: Option<nat>, runType: string, day: int)

  datatype CrawlRun = CrawlRun(retailer: nat, store: Option<nat>, runType: string, scheduledAt: int)

  datatype CrawlJob = CrawlJob(
    run: nat, status: JobStatus, priority: int, attempts: nat, maxAttempts: nat, availableAt: int,
    lockedBy: Option<nat>, lockedAt: Option<int>, heartbeat: Option<int>, key: Option<Key>)

  type Jobs = map<nat, CrawlJob>
  type Runs = map<nat, CrawlRun>
  type Limits = map<nat, nat>

  // ----- Jobs in flight -------------------------------------------------------------------------

  predicate InFlight(jobs: Jobs, runs: Runs, retailer: nat, id: nat) {
    id in jobs && jobs[id].status.Locked? && jobs[id].run in runs && runs[jobs[id].run].retailer == retailer
  }

  function LockedOf(jobs: Jobs, runs: Runs, retailer: nat): set<nat> {
    set id | id in jobs && InFlight(jobs, runs, retailer, id)
  }

  /** No limited retailer has more locked jobs than its limit. */
  ghost predicate WithinLimits(jobs: Jobs, runs: Runs, limits: Limits) {
    forall r :: r in limits ==> |LockedOf(jobs, runs, r)| <= limits[r]
  }

  ghost predicate HaveRuns(jobs: Jobs, runs: Runs) {
    forall id :: id in jobs ==> jobs[id].run in runs
  }

  lemma {:induction false} FewerLocked(jobs: Jobs, jobs': Jobs, runs: Runs, limits: Limits)
    requires WithinLimits(jobs, runs, limits)
    requires forall id :: id in jobs' && jobs'[id].status.Locked? ==>
      id in jobs && jobs[id].status.Locked? && jobs[id].run == jobs'[id].run
    ensures WithinLimits(jobs', runs, limits)
  {
    forall r | r in limits ensures |LockedOf(jobs', runs, r)| <= limits[r] {
      SubsetSmaller(LockedOf(jobs', runs, r), LockedOf(jobs, runs, r));
    }
  }

  lemma {:induction false} SubsetSmaller(s: set<nat>, t: set<nat>)
    requires s <= t
    ensures |s| <= |t|
  {
    assert t == s + (t - s);
  }

  /** Locking one more job of a retailer below its limit stays within the limits. */
  lemma {:induction false} OneMoreLocked(jobs: Jobs, runs: Runs, limits: Limits, id: nat, job: CrawlJob)
    requires WithinLimits(jobs, runs, limits) && id in jobs && job.run == jobs[id].run && job.run in runs
    requires var r := runs[job.run].retailer; r in limits ==> |LockedOf(jobs, runs, r)| < limits[r]
    ensures WithinLimits(jobs[id := job], runs, limits)
  {
    var jobs' := jobs[id := job];
    forall r | r in limits ensures |LockedOf(jobs', runs, r)| <= limits[r] {
      if r == runs[job.run].retailer {
        SubsetSmaller(LockedOf(jobs', runs, r), LockedOf(jobs, runs, r) + {id});
      } else {
        SubsetSmaller(LockedOf(jobs', runs, r), LockedOf(jobs, runs, r));
      }
    }
  }

  /** A retailer is found at capacity only through its locked jobs: one without any is never excluded. */
  predicate AtCapacity(jobs: Jobs, runs: Runs, limits: Limits, retailer: nat) {
    && retailer in limits
    && LockedOf(jobs, runs, retailer) != {}
    && |LockedOf(jobs, runs, retailer)| >= limits[retailer]
  }

  /** `_retailers_at_capacity`. */
  method RetailersAtCapacity(jobs: Jobs, runs: Runs, limits: Limits) returns (full: set<nat>)
    ensures forall r: nat :: r in full <==> AtCapacity(jobs, runs, limits, r)
  {
    full := {};
    var todo := limits.Keys;
    while todo != {}
      invariant todo <= limits.Keys
      invariant forall r: nat :: r in full <==> AtCapacity(jobs, runs, limits, r) && r !in todo
    {
      var r :| r in todo;
      if LockedOf(jobs, runs, r) != {} && |LockedOf(jobs, runs, r)| >= limits[r] {
        full := full + {r};
      }
      todo := todo - {r};
    }
  }

  // ----- The claim order ------------------------------------------------------------------------

  predicate Claimable(jobs: Jobs, runs: Runs, limits: Limits, now: int, id: nat) {
    && id in jobs && jobs[id].status.Queued? && jobs[id].availableAt <= now
    && jobs[id].run in runs && !AtCapacity(jobs, runs, limits, runs[jobs[id].run].retailer)
  }

  /** The order of (priority descending, available_at, id). */
  predicate ClaimedBefore(jobs: Jobs, a: nat, b: nat)
    requires a in jobs && b in jobs
  {
    if jobs[a].priority != jobs[b].priority then jobs[a].priority > jobs[b].priority
    else if jobs[a].availableAt != jobs[b].availableAt then jobs[a].availableAt < jobs[b].availableAt
    else a < b
  }

  ghost predicate IsNext(jobs: Jobs, runs: Runs, limits: Limits, now: int, id: nat) {
    && Claimable(jobs, runs, limits, now, id)
    && forall other :: other in jobs && Claimable(jobs, runs, limits, now, other) && other != id ==> ClaimedBefore(jobs, id, other)
  }

  predicate Runnable(jobs: Jobs, runs: Runs, full: set<nat>, now: int, id: nat) {
    && id in jobs && jobs[id].status.Queued? && jobs[id].availableAt <= now
    && jobs[id].run in runs && runs[jobs[id].run].retailer !in full
  }

  method FirstRunnable(jobs: Jobs, runs: Runs, full: set<nat>, now: int) returns (next: Option<nat>)
    ensures next.None? ==> forall id :: id in jobs ==> !Runnable(jobs, runs, full, now, id)
    ensures next.Some? ==> Runnable(jobs, runs, full, now, next.value)
    ensures next.Some? ==> forall id :: id in jobs && Runnable(jobs, runs, full, now, id) && id != next.value ==>
      ClaimedBefore(jobs, next.value, id)
  {
    next := None;
    var todo := jobs.Keys;
    while todo != {}
      invariant todo <= jobs.Keys
      invariant next.None? ==> forall id :: id in jobs && id !in todo ==> !Runnable(jobs, runs, full, now, id)
      invariant next.Some? ==> Runnable(jobs, runs, full, now, next.value)
      invariant next.Some? ==> forall id :: id in jobs && id !in todo && Runnable(jobs, runs, full, now, id) && id != next.value ==>
        ClaimedBefore(jobs, next.value, id)
    {
      var id :| id in todo;
      if Runnable(jobs, runs, full, now, id) && (next.None? || ClaimedBefore(jobs, id, next.value)) {
        next := Some(id);
      }
      todo := todo - {id};
    }
  }

  // ----- Retries --------------------------------------------------------------------------------

  function Power(n: nat): nat {
    if n == 0 then 1 else 2 * Power(n - 1)
  }

  function Min(a: nat, b: nat): nat {
    if a <= b then a else b
  }

  /** The delay before attempt `attempts + 1`; `jitter` is what the random source adds. */
  function BackoffDelay(attempts: nat, jitter: nat): nat {
    Min(Min(3600, 30 * Power(if attempts >= 1 then attempts - 1 else 0)) + jitter, 3630)
  }

  /** With a jitter of at most thirty seconds the delay stays between 30 and 3630 seconds. */
  lemma {:induction false} BackoffBounds(attempts: nat, jitter: nat)
    requires jitter <= 30
    ensures 30 <= BackoffDelay(attempts, jitter) <= 3630
    ensures BackoffDelay(attempts, jitter) == BackoffDelay(attempts, 0) + jitter
  {
    PowerPositive(if attempts >= 1 then attempts - 1 else 0);
  }

  lemma {:induction false} PowerPositive(n: nat)
    ensures Power(n) >= 1
  {
    if n > 0 {
      PowerPositive(n - 1);
    }
  }

  /** The first retry waits half a minute, every further one twice as long, up to an hour; the jitter comes on top. */
  lemma {:induction false} BackoffDoubles(attempts: nat, jitter: nat)
    requires attempts >= 1 && jitter <= 30
    ensures BackoffDelay(1, jitter) == 30 + jitter
    ensures BackoffDelay(attempts + 1, jitter) == (if 2 * BackoffDelay(attempts, 0) <= 3600 then 2 * BackoffDelay(attempts, 0) else 3600) + jitter
  {
    assert Power(0) == 1 && Power(attempts) == 2 * Power(attempts - 1);
  }

  function FreshJob(run: nat, priority: int, maxAttempts: nat, availableAt: int, key: Option<Key>): CrawlJob {
    CrawlJob(run, Queued, priority, 0, maxAttempts, availableAt, None, None, None, key)
  }

  function Claimed(job: CrawlJob, worker: nat, now: int): CrawlJob {
    job.(status := Locked, lockedAt := Some(now), lockedBy := Some(worker), heartbeat := Some(now))
  }

  function Finished(job: CrawlJob, now: int): CrawlJob {
    job.(status := Completed, heartbeat := Some(now), lockedAt := None, lockedBy := None)
  }

  function Withdrawn(job: CrawlJob, now: int): CrawlJob {
    job.(status := Cancelled, heartbeat := Some(now), lockedAt := None, lockedBy := None)
  }

  /** A failed attempt: a dead letter when the attempts are used up, otherwise back to the queue. */
  function Failed(job: CrawlJob, now: int, jitter: nat): CrawlJob {
    var next := job.(attempts := job.attempts + 1, lockedAt := None, lockedBy := None, heartbeat := Some(now));
    if next.attempts >= next.maxAttempts then next.(status := DeadLetter)
    else next.(status := Queued, availableAt := now + BackoffDelay(next.attempts, jitter))
  }

  /** A recovered job goes back to the queue without an attempt. */
  function Recovered(job: CrawlJob, now: int): CrawlJob {
    job.(status := Queued, availableAt := now, lockedAt := None, lockedBy := None, heartbeat := None)
  }

  predicate Stuck(job: CrawlJob, cutoff: int) {
    job.status.Locked? && (job.heartbeat.None? || job.heartbeat.value < cutoff)
  }

  /**
    A job that may still run has attempts left (or was never tried), and a dead letter has none.  This holds whoever
    completes or fails a job, also a worker that is late.
   */
  ghost predicate AttemptsLeft(job: CrawlJob, failures: nat) {
    && failures == job.attempts
    && (job.status.Queued? || job.status.Locked? ==> job.attempts == 0 || job.attempts < job.maxAttempts)
    && (job.status.DeadLetter? ==> job.attempts >= job.maxAttempts)
  }

  ghost predicate AllAttemptsLeft(jobs: Jobs, failures: map<nat, nat>) {
    forall id :: id in jobs ==> id in failures && AttemptsLeft(jobs[id], failures[id])
  }

  /** No job failed more often than allowed, or once if nothing is allowed. */
  ghost predicate InBounds(jobs: Jobs) {
    forall id :: id in jobs ==> jobs[id].attempts <= 1 || jobs[id].attempts <= jobs[id].maxAttempts
  }

  ghost predicate KeysUnique(jobs: Jobs) {
    forall a, b :: a in jobs && b in jobs && jobs[a].key.Some? && jobs[a].key == jobs[b].key ==> a == b
  }

  // ----- The queue ------------------------------------------------------------------------------

  class Queue {
    var runs: Runs
    var jobs: Jobs
    var nextRun: nat
    var nextJob: nat
    /** How often each job failed. */
    ghost var failures: map<nat, nat>

    ghost predicate Valid()
      reads this
    {
      && (forall id :: id in runs ==> id < nextRun)
      && (forall id :: id in jobs ==> id < nextJob)
      && HaveRuns(jobs, runs) && AllAttemptsLeft(jobs, failures) && KeysUnique(jobs)
    }

    constructor ()
      ensures Valid() && runs == map[] && jobs == map[]
    {
      runs, jobs, nextRun, nextJob, failures := map[], map[], 0, 0, map[];
    }

    method CreateRun(run: CrawlRun) returns (id: nat)
      requires Valid()
      modifies this
      ensures Valid() && id == old(nextRun) && id !in old(runs) && nextRun == id + 1
      ensures runs == old(runs)[id := run] && jobs == old(jobs) && failures == old(failures) && nextJob == old(nextJob)
    {
      id := nextRun;
      runs, nextRun := runs[id := run], id + 1;
    }

    method FindByKey(key: Key) returns (id: Option<nat>)
      requires Valid()
      ensures id.None? ==> forall j :: j in jobs ==> jobs[j].key != Some(key)
      ensures id.Some? ==> id.value in jobs && jobs[id.value].key == Some(key)
    {
      id := None;
      var todo := jobs.Keys;
      while todo != {}
        invariant todo <= jobs.Keys
        invariant id.None? ==> forall j :: j in jobs && j !in todo ==> jobs[j].key != Some(key)
        invariant id.Some? ==> id.value in jobs && jobs[id.value].key == Some(key)
      {
        var j :| j in todo;
        if jobs[j].key == Some(key) && (id.None? || j < id.value) {
          id := Some(j);
        }
        todo := todo - {j};
      }
    }

    /** `enqueue_job`: a key that was enqueued before, in whatever state its job is, gives that job. */
    method Enqueue(run: nat, priority: int, maxAttempts: nat, availableAt: int, key: Option<Key>) returns (id: nat, created: bool)
      requires Valid() && run in runs
      modifies this
      ensures Valid() && runs == old(runs) && nextRun == old(nextRun)
      ensures created <==> key.None? || forall j :: j in old(jobs) ==> old(jobs)[j].key != key
      ensures !created ==> id in jobs && jobs == old(jobs) && jobs[id].key == key
      ensures created ==>
        && id !in old(jobs)
        && jobs == old(jobs)[id := FreshJob(run, priority, maxAttempts, availableAt, key)]
      ensures forall j :: j in old(failures) ==> j in failures && (j in old(jobs) ==> failures[j] == old(failures)[j])
    {
      if key.Some? {
        var existing := FindByKey(key.value);
        if existing.Some? {
          return existing.value, false;
        }
      }
      id, created := nextJob, true;
      jobs := jobs[id := FreshJob(run, priority, maxAttempts, availableAt, key)];
      failures := failures[id := 0];
      nextJob := id + 1;
    }

    /** `claim_job`. */
    method Claim(worker: nat, limits: Limits, now: int) returns (id: Option<nat>)
      requires Valid()
      modifies this
      ensures Valid() && runs == old(runs) && failures == old(failures)
      ensures id.None? ==> jobs == old(jobs) && forall j :: j in jobs ==> !Claimable(jobs, runs, limits, now, j)
      ensures id.Some? ==>
        && IsNext(old(jobs), runs, limits, now, id.value)
        && jobs == old(jobs)[id.value := Claimed(old(jobs)[id.value], worker, now)]
    {
      var full := RetailersAtCapacity(jobs, runs, limits);
      id := FirstRunnable(jobs, runs, full, now);
      if id.Some? {
        jobs := jobs[id.value := Claimed(jobs[id.value], worker, now)];
      }
    }

    /** `complete_job`, whatever the status of the job. */
    method Complete(id: nat, now: int)
      requires Valid() && id in jobs
      modifies this
      ensures Valid() && runs == old(runs) && failures == old(failures)
      ensures jobs == old(jobs)[id := Finished(old(jobs)[id], now)]
    {
      jobs := jobs[id := Finished(jobs[id], now)];
    }

    /** `fail_job`, whatever the status of the job. */
    method Fail(id: nat, now: int, jitter: nat)
      requires Valid() && id in jobs
      modifies this
      ensures Valid() && runs == old(runs)
      ensures jobs == old(jobs)[id := Failed(old(jobs)[id], now, jitter)]
      ensures failures == old(failures)[id := old(failures)[id] + 1]
    {
      jobs := jobs[id := Failed(jobs[id], now, jitter)];
      failures := failures[id := failures[id] + 1];
    }

    method Cancel(id: nat, now: int)
      requires Valid() && id in jobs
      modifies this
      ensures Valid() && runs == old(runs) && failures == old(failures)
      ensures jobs == old(jobs)[id := Withdrawn(old(jobs)[id], now)]
    {
      jobs := jobs[id := Withdrawn(jobs[id], now)];
    }

    method Beat(id: nat, now: int)
      requires Valid() && id in jobs
      modifies this
      ensures Valid() && runs == old(runs) && failures == old(failures)
      ensures jobs == old(jobs)[id := old(jobs)[id].(heartbeat := Some(now))]
    {
      jobs := jobs[id := jobs[id].(heartbeat := Some(now))];
    }

    /** `recover_stuck_jobs`. */
    method RecoverStuck(now: int, timeout: nat) returns (count: nat)
      requires Valid()
      modifies this
      ensures Valid() && runs == old(runs) && failures == old(failures)
      ensures jobs.Keys == old(jobs).Keys
      ensures forall id :: id in jobs ==>
        jobs[id] == if Stuck(old(jobs)[id], now - timeout) then Recovered(old(jobs)[id], now) else old(jobs)[id]
    {
      count := 0;
      var todo := jobs.Keys;
      while todo != {}
        invariant Valid() && runs == old(runs) && failures == old(failures) && todo <= jobs.Keys
        invariant jobs.Keys == old(jobs).Keys
        invariant forall id :: id in jobs ==>
          jobs[id] == if Stuck(old(jobs)[id], now - timeout) && id !in todo then Recovered(old(jobs)[id], now) else old(jobs)[id]
      {
        var id :| id in todo;
        var stuck := RecoverOne(id, now, timeout);
        count := count + if stuck then 1 else 0;
        todo := todo - {id};
      }
    }

    /** Queues a job again if its worker has been silent for too long. */
    method RecoverOne(id: nat, now: int, timeout: nat) returns (stuck: bool)
      requires Valid() && id in jobs
      modifies this
      ensures Valid() && runs == old(runs) && failures == old(failures)
      ensures stuck == Stuck(old(jobs)[id], now - timeout)
      ensures jobs == old(jobs)[id := if stuck then Recovered(old(jobs)[id], now) else old(jobs)[id]]
    {
      stuck := Stuck(jobs[id], now - timeout);
      if stuck {
        jobs := jobs[id := Recovered(jobs[id], now)];
      }
    }
  }

  // ----- Runs under fixed limits ----------------------------------------------------------------

  ghost predicate Positive(limits: Limits) {
    forall r :: r in limits ==> limits[r] >= 1
  }

  /** A claim keeps every limited retailer within its limit exactly when the limit of its retailer, if any, is at least one. */
  lemma {:induction false} ClaimWithinLimits(jobs: Jobs, runs: Runs, limits: Limits, now: int, id: nat, worker: nat)
    requires WithinLimits(jobs, runs, limits) && Claimable(jobs, runs, limits, now, id)
    ensures WithinLimits(jobs[id := Claimed(jobs[id], worker, now)], runs, limits) <==>
      var r := runs[jobs[id].run].retailer; r in limits ==> limits[r] >= 1
  {
    var job, r := Claimed(jobs[id], worker, now), runs[jobs[id].run].retailer;
    var after := jobs[id := job];
    if r in limits ==> limits[r] >= 1 {
      OneMoreLocked(jobs, runs, limits, id, job);
    } else {
      assert id in LockedOf(after, runs, r);
      SubsetSmaller({id}, LockedOf(after, runs, r));
      assert |LockedOf(after, runs, r)| > limits[r];
    }
  }

  /** A limit of zero is not a ban: the one job of its retailer is claimed, and then the limit is exceeded. */
  lemma {:induction false} ZeroLimitIsExceeded(worker: nat)
    ensures var jobs: Jobs, runs: Runs, limits: Limits :=
        map[0 := FreshJob(0, 0, 3, 0, None)], map[0 := CrawlRun(0, None, "prices", 0)], map[0 := 0];
      && WithinLimits(jobs, runs, limits)
      && IsNext(jobs, runs, limits, 0, 0)
      && !WithinLimits(jobs[0 := Claimed(jobs[0], worker, 0)], runs, limits)
  {
    var jobs: Jobs, runs: Runs, limits: Limits :=
      map[0 := FreshJob(0, 0, 3, 0, None)], map[0 := CrawlRun(0, None, "prices", 0)], map[0 := 0];
    assert LockedOf(jobs, runs, 0) == {};
    assert Claimable(jobs, runs, limits, 0, 0);
    ClaimWithinLimits(jobs, runs, limits, 0, 0, worker);
  }

  // ----- Any interleaving -----------------------------------------------------------------------

  datatype Step =
    | EnqueueStep(run: nat, priority: int, maxAttempts: nat, availableAt: int, key: Option<Key>)
    | ClaimStep(worker: nat, now: int)
    | CompleteStep(job: nat, now: int)
    | FailStep(job: nat, now: int, jitter: nat)
    | CancelStep(job: nat, now: int)
    | BeatStep(job: nat, now: int)
    | RecoverStep(now: int, timeout: nat)

  ghost predicate EnqueueEffect(before: Jobs, after: Jobs, job: CrawlJob) {
    if job.key.Some? && exists j :: j in before && before[j].key == job.key then after == before
    else exists id: nat :: id !in before && after == before[id := job]
  }

  ghost predicate ClaimEffect(before: Jobs, after: Jobs, runs: Runs, limits: Limits, worker: nat, now: int) {
    || (after == before && forall j :: j in before ==> !Claimable(before, runs, limits, now, j))
    || (exists id: nat :: IsNext(before, runs, limits, now, id) && after == before[id := Claimed(before[id], worker, now)])
  }

  ghost predicate RecoverEffect(before: Jobs, after: Jobs, cutoff: int, now: int) {
    && after.Keys == before.Keys
    && forall id :: id in before ==> after[id] == if Stuck(before[id], cutoff) then Recovered(before[id], now) else before[id]
  }

  /** What a step makes of the jobs; a step about a run or job that does not exist changes nothing. */
  ghost predicate Effect(before: Jobs, after: Jobs, runs: Runs, limits: Limits, step: Step) {
    match step
    case EnqueueStep(run, priority, maxAttempts, availableAt, key) =>
      if run in runs then EnqueueEffect(before, after, FreshJob(run, priority, maxAttempts, availableAt, key)) else after == before
    case ClaimStep(worker, now) => ClaimEffect(before, after, runs, limits, worker, now)
    case CompleteStep(job, now) => after == if job in before then before[job := Finished(before[job], now)] else before
    case FailStep(job, now, jitter) => after == if job in before then before[job := Failed(before[job], now, jitter)] else before
    case CancelStep(job, now) => after == if job in before then before[job := Withdrawn(before[job], now)] else before
    case BeatStep(job, now) => after == if job in before then before[job := before[job].(heartbeat := Some(now))] else before
    case RecoverStep(now, timeout) => RecoverEffect(before, after, now - timeout, now)
  }

  /** The worker that fails a job still holds it. */
  ghost predicate InTime(jobs: Jobs, step: Step) {
    step.FailStep? ==> step.job in jobs ==> jobs[step.job].status.Locked?
  }

  /** No step takes a limited retailer over its limit, if all limits are at least one. */
  lemma {:induction false} EffectWithinLimits(before: Jobs, after: Jobs, runs: Runs, limits: Limits, step: Step)
    requires Effect(before, after, runs, limits, step) && WithinLimits(before, runs, limits) && Positive(limits)
    ensures WithinLimits(after, runs, limits)
  {
    if step.ClaimStep? && after != before {
      var id: nat :| IsNext(before, runs, limits, step.now, id) && after == before[id := Claimed(before[id], step.worker, step.now)];
      ClaimWithinLimits(before, runs, limits, step.now, id, step.worker);
    } else {
      FewerLocked(before, after, runs, limits);
    }
  }

  /** If the step fails a job, the job was never tried or has attempts left. */
  ghost predicate HasAttempts(jobs: Jobs, step: Step) {
    step.FailStep? && step.job in jobs ==> jobs[step.job].attempts == 0 || jobs[step.job].attempts < jobs[step.job].maxAttempts
  }

  /** A step keeps the attempts in bounds exactly when it does not fail a job whose attempts are used up. */
  lemma {:induction false} EffectInBounds(before: Jobs, after: Jobs, runs: Runs, limits: Limits, step: Step)
    requires Effect(before, after, runs, limits, step) && InBounds(before)
    ensures InBounds(after) <==> HasAttempts(before, step)
  {
    if step.FailStep? && step.job in before {
      assert after[step.job].attempts == before[step.job].attempts + 1;
      assert forall id :: id in before && id != step.job ==> after[id] == before[id];
    }
  }

  /** A worker that is in time has attempts left. */
  lemma {:induction false} InTimeHasAttempts(jobs: Jobs, failures: map<nat, nat>, step: Step)
    requires AllAttemptsLeft(jobs, failures) && InTime(jobs, step)
    ensures HasAttempts(jobs, step)
  {
    if step.FailStep? && step.job in jobs {
      assert AttemptsLeft(jobs[step.job], failures[step.job]);
    }
  }

  /** Attempts never go down and jobs never disappear, so what is out of bounds stays so. */
  lemma {:induction false} EffectStaysOut(before: Jobs, after: Jobs, runs: Runs, limits: Limits, step: Step)
    requires Effect(before, after, runs, limits, step) && !InBounds(before)
    ensures !InBounds(after)
  {
    var id :| id in before && before[id].attempts > 1 && before[id].attempts > before[id].maxAttempts;
    assert id in after && after[id].attempts >= before[id].attempts && after[id].maxAttempts == before[id].maxAttempts;
  }

  /** One step of any worker or of the recovery. */
  method Take(queue: Queue, limits: Limits, step: Step)
    requires queue.Valid()
    modifies queue
    ensures queue.Valid() && queue.runs == old(queue.runs)
    ensures Effect(old(queue.jobs), queue.jobs, queue.runs, limits, step)
  {
    match step {
      case EnqueueStep(run, priority, maxAttempts, availableAt, key) =>
        if run in queue.runs {
          var id, created := queue.Enqueue(run, priority, maxAttempts, availableAt, key);
        }
      case ClaimStep(worker, now) =>
        var id := queue.Claim(worker, limits, now);
      case CompleteStep(job, now) =>
        if job in queue.jobs {
          queue.Complete(job, now);
        }
      case FailStep(job, now, jitter) =>
        if job in queue.jobs {
          queue.Fail(job, now, jitter);
        }
      case CancelStep(job, now) =>
        if job in queue.jobs {
          queue.Cancel(job, now);
        }
      case BeatStep(job, now) =>
        if job in queue.jobs {
          queue.Beat(job, now);
        }
      case RecoverStep(now, timeout) =>
        var count := queue.RecoverStuck(now, timeout);
    }
  }

  /** The jobs before, between and after the steps, each step with its effect. */
  ghost predicate IsTrace(trace: seq<Jobs>, runs: Runs, limits: Limits, steps: seq<Step>) {
    && |trace| == |steps| + 1
    && forall k | 0 <= k < |steps| :: EffectAt(trace, runs, limits, steps, k)
  }

  ghost predicate EffectAt(trace: seq<Jobs>, runs: Runs, limits: Limits, steps: seq<Step>, k: nat)
    requires k < |steps|
  {
    k + 1 < |trace| && Effect(trace[k], trace[k + 1], runs, limits, steps[k])
  }

  lemma {:induction false} TraceStep(trace: seq<Jobs>, runs: Runs, limits: Limits, steps: seq<Step>, jobs: Jobs, step: Step)
    requires IsTrace(trace, runs, limits, steps) && Effect(trace[|steps|], jobs, runs, limits, step)
    ensures IsTrace(trace + [jobs], runs, limits, steps + [step])
  {
    var trace', steps' := trace + [jobs], steps + [step];
    forall k | 0 <= k < |steps'| ensures EffectAt(trace', runs, limits, steps', k) {
      assert k < |steps| ==> EffectAt(trace, runs, limits, steps, k);
    }
  }

  lemma {:induction false} BoundsAfter(before: Jobs, after: Jobs, failures: map<nat, nat>, runs: Runs, limits: Limits, step: Step)
    requires Effect(before, after, runs, limits, step) && AllAttemptsLeft(before, failures)
    ensures InBounds(after) <==> InBounds(before) && HasAttempts(before, step)
    ensures InTime(before, step) ==> HasAttempts(before, step)
  {
    if InBounds(before) {
      EffectInBounds(before, after, runs, limits, step);
    } else {
      EffectStaysOut(before, after, runs, limits, step);
    }
    if InTime(before, step) {
      InTimeHasAttempts(before, failures, step);
    }
  }

  /** What the steps of a trace say about the bounds of its last state. */
  ghost predicate BoundsOf(trace: seq<Jobs>, steps: seq<Step>) {
    && |trace| == |steps| + 1
    && (InBounds(trace[0]) ==> (InBounds(trace[|steps|]) <==> forall k | 0 <= k < |steps| :: HasAttempts(trace[k], steps[k])))
    && (forall k | 0 <= k < |steps| :: InTime(trace[k], steps[k]) ==> HasAttempts(trace[k], steps[k]))
  }

  lemma {:induction false} BoundsStep(trace: seq<Jobs>, steps: seq<Step>, jobs: Jobs, step: Step)
    requires BoundsOf(trace, steps)
    requires InBounds(jobs) <==> InBounds(trace[|steps|]) && HasAttempts(trace[|steps|], step)
    requires InTime(trace[|steps|], step) ==> HasAttempts(trace[|steps|], step)
    ensures BoundsOf(trace + [jobs], steps + [step])
  {
    var trace', steps' := trace + [jobs], steps + [step];
    assert forall k | 0 <= k < |steps| :: trace'[k] == trace[k] && steps'[k] == steps[k];
    assert trace'[|steps|] == trace[|steps|] && steps'[|steps|] == step;
    if forall k | 0 <= k < |steps'| :: HasAttempts(trace'[k], steps'[k]) {
      assert forall k | 0 <= k < |steps| :: HasAttempts(trace[k], steps[k]);
    }
  }

  /** All states of a trace are within limits that are at least one, if the first one is. */
  lemma {:induction false} TraceWithinLimits(trace: seq<Jobs>, runs: Runs, limits: Limits, steps: seq<Step>, k: nat)
    requires IsTrace(trace, runs, limits, steps) && WithinLimits(trace[0], runs, limits) && Positive(limits) && k < |trace|
    ensures WithinLimits(trace[k], runs, limits)
  {
    if k > 0 {
      TraceWithinLimits(trace, runs, limits, steps, k - 1);
      assert EffectAt(trace, runs, limits, steps, k - 1);
      EffectWithinLimits(trace[k - 1], trace[k], runs, limits, steps[k - 1]);
    }
  }

  /**
    Any interleaving of steps, each with exactly its effect.  Within limits that are at least one all states stay
    within them, and the attempts end in bounds exactly when no step failed a job whose attempts were used up; a
    worker that is in time never does.
   */
  method Run(queue: Queue, limits: Limits, steps: seq<Step>) returns (ghost trace: seq<Jobs>)
    requires queue.Valid()
    modifies queue
    ensures queue.Valid() && queue.runs == old(queue.runs)
    ensures IsTrace(trace, queue.runs, limits, steps) && trace[0] == old(queue.jobs) && trace[|steps|] == queue.jobs
    ensures WithinLimits(old(queue.jobs), queue.runs, limits) && Positive(limits) ==>
      forall k | 0 <= k < |trace| :: WithinLimits(trace[k], queue.runs, limits)
    ensures InBounds(old(queue.jobs)) ==> (InBounds(queue.jobs) <==> forall k | 0 <= k < |steps| :: HasAttempts(trace[k], steps[k]))
    ensures forall k | 0 <= k < |steps| :: InTime(trace[k], steps[k]) ==> HasAttempts(trace[k], steps[k])
  {
    trace := [queue.jobs];
    for k := 0 to |steps|
      invariant queue.Valid() && queue.runs == old(queue.runs)
      invariant IsTrace(trace, queue.runs, limits, steps[..k]) && trace[0] == old(queue.jobs) && trace[k] == queue.jobs
      invariant BoundsOf(trace, steps[..k])
    {
      ghost var before, failures := queue.jobs, queue.failures;
      Take(queue, limits, steps[k]);
      BoundsAfter(before, queue.jobs, failures, queue.runs, limits, steps[k]);
      TraceStep(trace, queue.runs, limits, steps[..k], queue.jobs, steps[k]);
      BoundsStep(trace, steps[..k], queue.jobs, steps[k]);
      PrefixStep(steps, k);
      trace := trace + [queue.jobs];
    }
    FullPrefix(steps);
    if WithinLimits(old(queue.jobs), queue.runs, limits) && Positive(limits) {
      forall k | 0 <= k < |trace| ensures WithinLimits(trace[k], queue.runs, limits) {
        TraceWithinLimits(trace, queue.runs, limits, steps, k);
      }
    }
  }

  /** A job that may still fail in time has failed less often than allowed, and its last failure makes it a dead letter. */
  lemma {:induction false} FailuresAreBounded(jobs: Jobs, failures: map<nat, nat>, id: nat, now: int, jitter: nat)
    requires AllAttemptsLeft(jobs, failures) && id in jobs
    ensures jobs[id].status.Queued? || jobs[id].status.Locked? ==> failures[id] == 0 || failures[id] < jobs[id].maxAttempts
    ensures Failed(jobs[id], now, jitter).status.DeadLetter? <==> failures[id] + 1 >= jobs[id].maxAttempts
  {
    assert AttemptsLeft(jobs[id], failures[id]);
  }

  /**
    A late worker that fails a job, whether it was completed, cancelled or given to another worker, puts it back into the
    queue, held by nobody, if attempts are left.
   */
  lemma {:induction false} LateFailureRequeues(job: CrawlJob, other: nat, since: int, now: int, jitter: nat)
    ensures forall late | late in {Finished(job, since), Withdrawn(job, since), Claimed(job, other, since)} ::
      var failed := Failed(late, now, jitter);
      failed.lockedBy.None? && (failed.status.Queued? <==> job.attempts + 1 < job.maxAttempts)
  {
  }

  /** A job that failed and has attempts left becomes available again after the delay for its attempts, and not before. */
  lemma {:induction false} RetryWaits(jobs: Jobs, runs: Runs, full: set<nat>, id: nat, now: int, jitter: nat, t: int)
    requires id in jobs && jitter <= 30 && jobs[id].attempts + 1 < jobs[id].maxAttempts
    requires jobs[id].run in runs && runs[jobs[id].run].retailer !in full
    ensures var after := jobs[id := Failed(jobs[id], now, jitter)];
      && (Runnable(after, runs, full, t, id) <==> now + BackoffDelay(jobs[id].attempts + 1, jitter) <= t)
      && (Runnable(after, runs, full, t, id) ==> t >= now + 30)
      && (jobs[id].attempts == 0 ==> (Runnable(after, runs, full, t, id) <==> now + 30 + jitter <= t))
  {
    BackoffBounds(jobs[id].attempts + 1, jitter);
    BackoffDoubles(1, jitter);
  }

  /** A job that was given up by its worker can run again at once, with the attempts it had. */
  lemma {:induction false} RecoveredRuns(jobs: Jobs, runs: Runs, full: set<nat>, id: nat, now: int, t: int)
    requires id in jobs && jobs[id].run in runs && runs[jobs[id].run].retailer !in full
    ensures var after := jobs[id := Recovered(jobs[id], now)];
      && (Runnable(after, runs, full, t, id) <==> now <= t) && after[id].attempts == jobs[id].attempts
  {
    assert jobs[id := Recovered(jobs[id], now)][id] == Recovered(jobs[id], now);
  }
}
