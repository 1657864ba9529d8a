/**
  Whole runs of the generation queue: workers claim, process and crash in any order, and the jobs of dead
  workers are recovered.  A worker processes only what it holds.
 */
module GenerationRuns {
  import opened Wrappers
  import opened Collections
  import opened Sums
  import opened GenerationJobs

  datatype Step =
    | ClaimStep(worker: nat, now: int)
    | ProcessStep(worker: nat, outcome: Outcome, now: int, pollSeconds: nat)
    | CrashStep(worker: nat)
    | RecoverStep(now: int, timeout: nat)

  /** The job each live worker is working on. */
  type Holding = map<nat, nat>

  /** A worker's job is in progress and locked by that worker. */
  ghost predicate Holds(jobs: Jobs, holding: Holding) {
    forall w :: w in holding ==>
      holding[w] in jobs && InProgress(jobs[holding[w]]) && jobs[holding[w]].lockedBy == Some(w)
  }

  /** Recovery takes back only jobs that no live worker holds. */
  ghost predicate HoldersDead(jobs: Jobs, holding: Holding, cutoff: int) {
    forall id :: id in jobs && Abandoned(jobs[id], cutoff) ==> forall w :: w in holding ==> holding[w] != id
  }

  /** The steps that a job can still take: two for each attempt that is left. */
  function Work(job: Job): nat {
    if Terminal(job) || job.attempts >= job.maxAttempts then 0
    else 2 * (job.maxAttempts - job.attempts) - if InProgress(job) then 1 else 0
  }

  ghost function WorkOf(jobs: Jobs, id: nat): real {
    if id in jobs then Work(jobs[id]) as real else 0.0
  }

  ghost function TotalWork(jobs: Jobs): real {
    Sum(jobs.Keys, id => WorkOf(jobs, id))
  }

  /** A step that lowers the work of one job lowers the total. */
  lemma {:induction false} WorkDone(jobs: Jobs, id: nat, job: Job)
    requires id in jobs && Work(job) < Work(jobs[id])
    ensures TotalWork(jobs[id := job]) + 1.0 <= TotalWork(jobs)
  {
    var jobs' := jobs[id := job];
    assert jobs'.Keys == jobs.Keys;
    SumRemove(jobs.Keys, j => WorkOf(jobs, j), id);
    SumRemove(jobs.Keys, j => WorkOf(jobs', j), id);
    SumSame(jobs.Keys - {id}, j => WorkOf(jobs, j), j => WorkOf(jobs', j));
  }

  lemma {:induction false} NoMoreWork(jobs: Jobs, jobs': Jobs)
    requires jobs.Keys == jobs'.Keys && forall id :: id in jobs ==> Work(jobs'[id]) <= Work(jobs[id])
    ensures TotalWork(jobs') <= TotalWork(jobs)
  {
    SumAtMost(jobs.Keys, jobs.Keys, j => WorkOf(jobs', j), j => WorkOf(jobs, j));
  }

  /** The first abandoned job accounts for the progress of a recovery that changes something. */
  lemma {:induction false} RecoveryWorks(jobs: Jobs, jobs': Jobs, claims: map<nat, nat>, cutoff: int, id: nat)
    requires AllCounted(jobs, claims) && Recovered(jobs, jobs', cutoff, {}) && id in jobs && Abandoned(jobs[id], cutoff)
    ensures TotalWork(jobs') + 1.0 <= TotalWork(jobs)
  {
    forall j | j in jobs ensures Work(jobs'[j]) <= Work(jobs[j]) {
      assert Counted(jobs[j], claims[j]);
    }
    assert Counted(jobs[id], claims[id]);
    var middle := jobs[id := jobs'[id]];
    WorkDone(jobs, id, jobs'[id]);
    NoMoreWork(middle, jobs');
  }

  lemma {:induction false} TotalWorkNonNegative(jobs: Jobs)
    ensures TotalWork(jobs) >= 0.0
  {
    SumAtMost({}, jobs.Keys, j => 0.0, j => WorkOf(jobs, j));
  }

  // ----- The effect of a step -------------------------------------------------------------------

  /** The tables, and which live worker holds which job. */
  datatype World = World(jobs: Jobs, runs: Runs, plans: Plans, holding: Holding)

  ghost predicate ClaimEffect(w: World, w': World, worker: nat, now: int) {
    if worker in w.holding then w' == w
    else
      || (w' == w && forall id :: id in w.jobs ==> !Runnable(w.jobs[id], now))
      || (exists id: nat ::
            && IsNext(w.jobs, now, id)
            && w' == w.(jobs := w.jobs[id := Claimed(w.jobs[id], worker, now)], holding := w.holding[worker := id]))
  }

  ghost predicate ProcessEffect(w: World, w': World, worker: nat, outcome: Outcome, now: int, pollSeconds: nat) {
    if worker !in w.holding then w' == w
    else
      && Linked(w.jobs, w.runs, w.plans) && w.holding[worker] in w.jobs
      && Processed(w.jobs, w.runs, w.plans, w'.jobs, w'.runs, w'.plans, w.holding[worker], outcome, now, pollSeconds)
      && w'.holding == w.holding - {worker}
  }

  /** The recovery runs only when every abandoned job's holder is dead; then it takes back exactly these jobs. */
  ghost predicate RecoverEffect(w: World, w': World, cutoff: int) {
    if !HoldersDead(w.jobs, w.holding, cutoff) then w' == w
    else
      && Recovered(w.jobs, w'.jobs, cutoff, {})
      && FailsWith(w.jobs, w'.jobs, w.runs, w.plans, w'.runs, w'.plans)
      && w'.holding == w.holding
  }

  ghost predicate Effect(w: World, w': World, step: Step) {
    match step
    case ClaimStep(worker, now) => ClaimEffect(w, w', worker, now)
    case ProcessStep(worker, outcome, now, pollSeconds) => ProcessEffect(w, w', worker, outcome, now, pollSeconds)
    case CrashStep(worker) => w' == w.(holding := w.holding - {worker})
    case RecoverStep(now, timeout) => RecoverEffect(w, w', now - timeout)
  }

  ghost function WorldOf(queue: Queue, holding: Holding): World
    reads queue
  {
    World(queue.jobs, queue.runs, queue.plans, holding)
  }

  /** A step that does work lowers the work that is left by at least one, and any other step leaves the jobs as they are. */
  ghost predicate Progresses(jobs: Jobs, jobs': Jobs, worked: bool) {
    if worked then TotalWork(jobs') + 1.0 <= TotalWork(jobs) else jobs' == jobs
  }

  lemma {:induction false} WorkMeansChange(jobs: Jobs, jobs': Jobs, worked: bool)
    requires Progresses(jobs, jobs', worked)
    ensures worked <==> jobs' != jobs
  {
  }

  /** A claimed job is held by its worker alone, and one step less is left. */
  lemma {:induction false} ClaimHolds(jobs: Jobs, claims: map<nat, nat>, holding: Holding, id: nat, worker: nat, now: int)
    requires Holds(jobs, holding) && worker !in holding && id in jobs && jobs[id].status.Queued?
    requires AllCounted(jobs, claims)
    ensures Holds(jobs[id := Claimed(jobs[id], worker, now)], holding[worker := id])
    ensures TotalWork(jobs[id := Claimed(jobs[id], worker, now)]) + 1.0 <= TotalWork(jobs)
  {
    assert Counted(jobs[id], claims[id]);
    WorkDone(jobs, id, Claimed(jobs[id], worker, now));
  }

  /** One claim. */
  method TakeClaim(queue: Queue, holding0: Holding, worker: nat, now: int) returns (holding: Holding, worked: bool)
    requires queue.Valid() && Holds(queue.jobs, holding0)
    modifies queue
    ensures queue.Valid() && Holds(queue.jobs, holding)
    ensures ClaimEffect(old(WorldOf(queue, holding0)), WorldOf(queue, holding), worker, now)
    ensures Progresses(old(queue.jobs), queue.jobs, worked)
  {
    if worker in holding0 {
      return holding0, false;
    }
    var id := queue.Claim(worker, now);
    if id.None? {
      return holding0, false;
    }
    ClaimHolds(old(queue.jobs), old(queue.claims), holding0, id.value, worker, now);
    holding, worked := holding0[worker := id.value], true;
  }

  /** What processing leaves of a job: it is finished or back in the queue with one attempt fewer. */
  lemma {:induction false} ProcessedWorks(jobs: Jobs, runs: Runs, plans: Plans, jobs': Jobs, runs': Runs, plans': Plans, claims: map<nat, nat>,
                                          id: nat, outcome: Outcome, now: int, pollSeconds: nat)
    requires Linked(jobs, runs, plans) && id in jobs && id in claims && Counted(jobs[id], claims[id]) && InProgress(jobs[id])
    requires Processed(jobs, runs, plans, jobs', runs', plans', id, outcome, now, pollSeconds)
    ensures id in jobs' && jobs' == jobs[id := jobs'[id]]
    ensures TotalWork(jobs') + 1.0 <= TotalWork(jobs)
  {
    WorkDone(jobs, id, jobs'[id]);
  }

  lemma {:induction false} OthersHold(jobs: Jobs, jobs': Jobs, holding: Holding, worker: nat)
    requires Holds(jobs, holding) && worker in holding && holding[worker] in jobs' && jobs' == jobs[holding[worker] := jobs'[holding[worker]]]
    ensures Holds(jobs', holding - {worker})
  {
  }

  /** One job processed by the worker that holds it. */
  method TakeProcess(queue: Queue, holding0: Holding, worker: nat, outcome: Outcome, now: int, pollSeconds: nat)
    returns (holding: Holding, worked: bool)
    requires queue.Valid() && Holds(queue.jobs, holding0)
    modifies queue
    ensures queue.Valid() && Holds(queue.jobs, holding)
    ensures ProcessEffect(old(WorldOf(queue, holding0)), WorldOf(queue, holding), worker, outcome, now, pollSeconds)
    ensures Progresses(old(queue.jobs), queue.jobs, worked)
  {
    if worker !in holding0 {
      return holding0, false;
    }
    var id := holding0[worker];
    queue.Process(id, outcome, now, pollSeconds);
    ProcessedWorks(old(queue.jobs), old(queue.runs), old(queue.plans), queue.jobs, queue.runs, queue.plans, old(queue.claims),
                   id, outcome, now, pollSeconds);
    OthersHold(old(queue.jobs), queue.jobs, holding0, worker);
    holding, worked := holding0 - {worker}, true;
  }

  /** A live worker holds a job that looks abandoned. */
  predicate SomeHeld(jobs: Jobs, holding: Holding, cutoff: int) {
    exists w :: w in holding && holding[w] in jobs && Abandoned(jobs[holding[w]], cutoff)
  }

  lemma {:induction false} DeadOrHeld(jobs: Jobs, holding: Holding, cutoff: int)
    ensures SomeHeld(jobs, holding, cutoff) <==> !HoldersDead(jobs, holding, cutoff)
  {
  }

  method TakeRecovery(queue: Queue, holding: Holding, now: int, timeout: nat) returns (worked: bool)
    requires queue.Valid() && Holds(queue.jobs, holding)
    modifies queue
    ensures queue.Valid() && Holds(queue.jobs, holding)
    ensures RecoverEffect(old(WorldOf(queue, holding)), WorldOf(queue, holding), now - timeout)
    ensures Progresses(old(queue.jobs), queue.jobs, worked)
  {
    var cutoff := now - timeout;
    DeadOrHeld(queue.jobs, holding, cutoff);
    if SomeHeld(queue.jobs, holding, cutoff) {
      return false;
    }
    ghost var before := queue.jobs;
    worked := exists id :: id in queue.jobs && Abandoned(queue.jobs[id], cutoff);
    var count := queue.Recover(now, timeout);
    RecoveryProgresses(before, queue.jobs, old(queue.claims), cutoff, worked);
  }

  lemma {:induction false} RecoveryProgresses(jobs: Jobs, jobs': Jobs, claims: map<nat, nat>, cutoff: int, worked: bool)
    requires AllCounted(jobs, claims) && Recovered(jobs, jobs', cutoff, {})
    requires worked <==> exists id :: id in jobs && Abandoned(jobs[id], cutoff)
    ensures Progresses(jobs, jobs', worked)
  {
    if worked {
      var id :| id in jobs && Abandoned(jobs[id], cutoff);
      RecoveryWorks(jobs, jobs', claims, cutoff, id);
    } else {
      MapsEqual(jobs', jobs);
    }
  }

  // ----- No job is stuck ------------------------------------------------------------------------

  /** Whatever exactly the step does, less work is left afterwards. */
  ghost predicate Enabled(w: World, step: Step) {
    forall w' :: Effect(w, w', step) ==> TotalWork(w'.jobs) + 1.0 <= TotalWork(w.jobs)
  }

  /** While a job is runnable, any idle worker can claim one. */
  lemma {:induction false} ClaimEnabled(w: World, claims: map<nat, nat>, id: nat, worker: nat, now: int)
    requires AllCounted(w.jobs, claims) && id in w.jobs && Runnable(w.jobs[id], now) && worker !in w.holding
    ensures Enabled(w, ClaimStep(worker, now))
  {
    forall w' | Effect(w, w', ClaimStep(worker, now)) ensures TotalWork(w'.jobs) + 1.0 <= TotalWork(w.jobs) {
      var next: nat :| IsNext(w.jobs, now, next) && w'.jobs == w.jobs[next := Claimed(w.jobs[next], worker, now)];
      assert Counted(w.jobs[next], claims[next]);
      WorkDone(w.jobs, next, Claimed(w.jobs[next], worker, now));
    }
  }

  /** The worker that holds a job can end it or give it back, whatever the outcome. */
  lemma {:induction false} ProcessEnabled(w: World, claims: map<nat, nat>, worker: nat, outcome: Outcome, now: int, pollSeconds: nat)
    requires AllCounted(w.jobs, claims) && Linked(w.jobs, w.runs, w.plans) && Holds(w.jobs, w.holding) && worker in w.holding
    ensures Enabled(w, ProcessStep(worker, outcome, now, pollSeconds))
  {
    var id := w.holding[worker];
    forall w' | Effect(w, w', ProcessStep(worker, outcome, now, pollSeconds)) ensures TotalWork(w'.jobs) + 1.0 <= TotalWork(w.jobs) {
      ProcessedWorks(w.jobs, w.runs, w.plans, w'.jobs, w'.runs, w'.plans, claims, id, outcome, now, pollSeconds);
    }
  }

  /** When the holders of the abandoned jobs are dead, the recovery takes them back. */
  lemma {:induction false} RecoveryEnabled(w: World, claims: map<nat, nat>, id: nat, now: int, timeout: nat)
    requires AllCounted(w.jobs, claims) && HoldersDead(w.jobs, w.holding, now - timeout)
    requires id in w.jobs && Abandoned(w.jobs[id], now - timeout)
    ensures Enabled(w, RecoverStep(now, timeout))
  {
    forall w' | Effect(w, w', RecoverStep(now, timeout)) ensures TotalWork(w'.jobs) + 1.0 <= TotalWork(w.jobs) {
      RecoveryWorks(w.jobs, w'.jobs, claims, now - timeout, id);
    }
  }

  /** The step that takes an unfinished job on: its claim, its processing, or its recovery once its holder is dead. */
  ghost predicate NextStep(w: World, id: nat, step: Step)
    requires id in w.jobs
  {
    match step
    case ClaimStep(worker, now) => worker !in w.holding && Runnable(w.jobs[id], now)
    case ProcessStep(worker, outcome, now, pollSeconds) => worker in w.holding && w.holding[worker] == id
    case RecoverStep(now, timeout) => Abandoned(w.jobs[id], now - timeout) && forall v :: v in w.holding ==> w.holding[v] != id
    case CrashStep(worker) => false
  }

  /** Every job that is not finished has such a step. */
  lemma {:induction false} UnfinishedHasStep(w: World, id: nat)
    requires id in w.jobs && !Terminal(w.jobs[id]) && Holds(w.jobs, w.holding)
    ensures exists step :: NextStep(w, id, step)
  {
    var job := w.jobs[id];
    if job.status.Queued? {
      var worker := Idle(w.holding.Keys);
      assert NextStep(w, id, ClaimStep(worker, if job.runAfter.Some? then job.runAfter.value else 0));
    } else if worker :| worker in w.holding && w.holding[worker] == id {
      assert NextStep(w, id, ProcessStep(worker, Raised, 0, 0));
    } else {
      assert NextStep(w, id, RecoverStep(if job.heartbeat.Some? then job.heartbeat.value + 1 else 0, 0));
    }
  }

  /** Some worker is not at work. */
  lemma {:induction false} Idle(busy: set<nat>) returns (worker: nat)
    ensures worker !in busy
  {
    worker := 0;
    var below: set<nat> := {};
    while worker in busy
      invariant below <= busy && forall x: nat :: x in below <==> x < worker
      decreases busy - below
    {
      below := below + {worker};
      worker := worker + 1;
    }
  }

  /** While a job is unfinished, some step leaves less work. */
  lemma {:induction false} UnfinishedMeansProgress(w: World, claims: map<nat, nat>, id: nat)
    requires AllCounted(w.jobs, claims) && Linked(w.jobs, w.runs, w.plans) && Holds(w.jobs, w.holding)
    requires id in w.jobs && !Terminal(w.jobs[id])
    ensures exists step :: Enabled(w, step)
  {
    if worker :| worker in w.holding {
      ProcessEnabled(w, claims, worker, Raised, 0, 0);
    } else {
      UnfinishedHasStep(w, id);
      var step :| NextStep(w, id, step);
      if step.ClaimStep? {
        ClaimEnabled(w, claims, id, step.worker, step.now);
      } else {
        RecoveryEnabled(w, claims, id, step.now, step.timeout);
      }
    }
  }

  /** The job has a step to take it on, and some step leaves less work. */
  ghost predicate Stirs(w: World, id: nat)
    requires id in w.jobs
  {
    (exists step :: NextStep(w, id, step)) && exists step :: Enabled(w, step)
  }

  lemma {:induction false} AllStir(w: World, claims: map<nat, nat>)
    requires AllCounted(w.jobs, claims) && Linked(w.jobs, w.runs, w.plans) && Holds(w.jobs, w.holding)
    ensures forall id :: id in w.jobs && !Terminal(w.jobs[id]) ==> Stirs(w, id)
  {
    forall id | id in w.jobs && !Terminal(w.jobs[id]) ensures Stirs(w, id) {
      UnfinishedHasStep(w, id);
      UnfinishedMeansProgress(w, claims, id);
    }
  }

  /** No step changes a finished job. */
  lemma {:induction false} EffectKeepsTerminal(w: World, w': World, step: Step)
    requires Effect(w, w', step) && Holds(w.jobs, w.holding)
    ensures TerminalKept(w.jobs, w'.jobs)
  {
  }

  lemma {:induction false} KeptOn(a: Jobs, b: Jobs, c: Jobs)
    requires TerminalKept(a, b) && TerminalKept(b, c)
    ensures TerminalKept(a, c)
  {
  }

  /** One step, with exactly its effect. */
  method Take(queue: Queue, holding0: Holding, step: Step) returns (holding: Holding, worked: bool)
    requires queue.Valid() && Holds(queue.jobs, holding0)
    modifies queue
    ensures queue.Valid() && Holds(queue.jobs, holding)
    ensures Effect(old(WorldOf(queue, holding0)), WorldOf(queue, holding), step)
    ensures Progresses(old(queue.jobs), queue.jobs, worked)
  {
    match step {
      case ClaimStep(worker, now) =>
        holding, worked := TakeClaim(queue, holding0, worker, now);
      case ProcessStep(worker, outcome, now, pollSeconds) =>
        holding, worked := TakeProcess(queue, holding0, worker, outcome, now, pollSeconds);
      case CrashStep(worker) =>
        holding, worked := holding0 - {worker}, false;
      case RecoverStep(now, timeout) =>
        holding := holding0;
        worked := TakeRecovery(queue, holding0, now, timeout);
    }
  }

  ghost predicate EffectAt(trace: seq<World>, steps: seq<Step>, k: nat)
    requires k < |steps|
  {
    k + 1 < |trace| && Effect(trace[k], trace[k + 1], steps[k])
  }

  /** The worlds before, between and after the steps, each step with its effect. */
  ghost predicate IsTrace(trace: seq<World>, steps: seq<Step>) {
    |trace| == |steps| + 1 && forall k | 0 <= k < |steps| :: EffectAt(trace, steps, k)
  }

  /** How many of the steps changed a job. */
  ghost function Changes(trace: seq<World>): nat {
    if |trace| < 2 then 0
    else Changes(trace[..|trace| - 1]) + if trace[|trace| - 1].jobs != trace[|trace| - 2].jobs then 1 else 0
  }

  lemma {:induction false} TraceStep(trace: seq<World>, steps: seq<Step>, world: World, step: Step)
    requires IsTrace(trace, steps) && Effect(trace[|steps|], world, step)
    ensures IsTrace(trace + [world], steps + [step])
    ensures Changes(trace + [world]) == Changes(trace) + if world.jobs != trace[|steps|].jobs then 1 else 0
  {
    var trace', steps' := trace + [world], steps + [step];
    forall k | 0 <= k < |steps'| ensures EffectAt(trace', steps', k) {
      assert k < |steps| ==> EffectAt(trace, steps, k);
    }
    assert trace'[..|trace|] == trace;
  }

  /**
    Any run, from no job held.  Every step has exactly its effect; no job is claimed or attempted more often than its
    maximum, no finished job is touched, and the steps that change a job are no more than two for each attempt there was;
    while a job is unfinished, it has a step to take it on, and some step leaves less work.
   */
  method Run(queue: Queue, steps: seq<Step>) returns (worked: nat, ghost trace: seq<World>)
    requires queue.Valid()
    modifies queue
    ensures queue.Valid() && TerminalKept(old(queue.jobs), queue.jobs)
    ensures IsTrace(trace, steps) && trace[0] == old(WorldOf(queue, map[]))
    ensures WorldOf(queue, trace[|steps|].holding) == trace[|steps|]
    ensures worked == Changes(trace) && worked as real + TotalWork(queue.jobs) <= TotalWork(old(queue.jobs))
    ensures worked as real <= TotalWork(old(queue.jobs))
    ensures forall id :: id in queue.jobs && !Terminal(queue.jobs[id]) ==> Stirs(trace[|steps|], id)
  {
    worked := 0;
    var holding: Holding := map[];
    trace := [WorldOf(queue, holding)];
    for k := 0 to |steps|
      invariant queue.Valid() && Holds(queue.jobs, holding) && TerminalKept(old(queue.jobs), queue.jobs)
      invariant IsTrace(trace, steps[..k]) && trace[0] == old(WorldOf(queue, map[])) && trace[k] == WorldOf(queue, holding)
      invariant worked == Changes(trace) && worked as real + TotalWork(queue.jobs) <= TotalWork(old(queue.jobs))
    {
      ghost var before, world := queue.jobs, WorldOf(queue, holding);
      var some;
      holding, some := Take(queue, holding, steps[k]);
      WorkMeansChange(before, queue.jobs, some);
      worked := worked + if some then 1 else 0;
      TraceStep(trace, steps[..k], WorldOf(queue, holding), steps[k]);
      PrefixStep(steps, k);
      trace := trace + [WorldOf(queue, holding)];
      EffectKeepsTerminal(world, WorldOf(queue, holding), steps[k]);
      KeptOn(old(queue.jobs), before, queue.jobs);
    }
    FullPrefix(steps);
    TotalWorkNonNegative(queue.jobs);
    AllStir(WorldOf(queue, holding), queue.claims);
  }

  /** Every job is claimed and attempted at most as often as allowed, and one that waits has attempts left. */
  lemma {:induction false} ClaimsAreBounded(jobs: Jobs, claims: map<nat, nat>, id: nat)
    requires AllCounted(jobs, claims) && id in jobs
    ensures claims[id] <= jobs[id].maxAttempts && jobs[id].attempts <= jobs[id].maxAttempts
    ensures jobs[id].status.Queued? ==> jobs[id].attempts < jobs[id].maxAttempts
    ensures !Terminal(jobs[id]) ==> Work(jobs[id]) > 0
  {
    assert Counted(jobs[id], claims[id]);
  }
}
