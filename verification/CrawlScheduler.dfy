/**
  The daily scheduler of crawl runs: which runs are due, how far apart they are, and the one job each of
  them gets.  Instants are seconds; a day has 86400 of them.
 */
module CrawlScheduler {
  import opened Wrappers
  import opened Collections
  import opened CrawlQueue

  datatype Frequency = Frequency(runTypes: seq<string>, cadence: map<string, int>, defaultCadence: int, priority: int, maxAttempts: nat)

  datatype Retailer = Retailer(id: nat, slug: string, stores: seq<nat>, blocked: bool)

  datatype Config = Config(default_: Frequency, perRetailer: map<string, Frequency>)

  datatype Report = Report(runsCreated: nat, jobsCreated: nat, skippedExisting: nat, skippedRetailers: nat)

  /** The run types a report accounts for, scheduled or skipped. */
  function Visited(report: Report): nat {
    report.runsCreated + report.skippedExisting
  }

  function CadenceFor(f: Frequency, runType: string): int {
    if runType in f.cadence then f.cadence[runType] else f.defaultCadence
  }

  function FrequencyFor(config: Config, slug: string): Frequency {
    if slug in config.perRetailer then config.perRetailer[slug] else config.default_
  }

  function Day(instant: int): int {
    instant / 86400
  }

  function Max(a: int, b: int): int {
    if a >= b then a else b
  }

  /** The least spacing in days that a cadence asks for. */
  function Spacing(cadence: int): int {
    Max(1, cadence)
  }

  /** What a run is scheduled for. */
  datatype Scope = Scope(retailer: nat, store: Option<nat>, runType: string)

  function ScopeOf(run: CrawlRun): Scope {
    Scope(run.retailer, run.store, run.runType)
  }

  function Cutoff(now: int, cadence: int): int {
    (Day(now) - Max(0, cadence - 1)) * 86400
  }

  predicate IsRecent(run: CrawlRun, scope: Scope, cadence: int, now: int) {
    ScopeOf(run) == scope && run.scheduledAt >= Cutoff(now, cadence)
  }

  /** `_recent_run_exists`. */
  predicate RecentRunExists(runs: Runs, scope: Scope, cadence: int, now: int) {
    exists id :: id in runs && IsRecent(runs[id], scope, cadence, now)
  }

  lemma {:induction false} DayBefore(instant: int, day: int)
    ensures instant < day * 86400 <==> Day(instant) < day
  {
  }

  /** A run is not recent exactly when it is at least the spacing of days before. */
  lemma {:induction false} NotRecentIsSpaced(run: CrawlRun, scope: Scope, cadence: int, now: int)
    requires ScopeOf(run) == scope
    ensures !IsRecent(run, scope, cadence, now) <==> Day(now) - Day(run.scheduledAt) >= Spacing(cadence)
  {
    DayBefore(run.scheduledAt, Day(now) - Max(0, cadence - 1));
  }

  /** Being recent depends on the day only. */
  lemma {:induction false} RecentAllDay(runs: Runs, scope: Scope, cadence: int, now: int, later: int)
    requires Day(now) == Day(later) && RecentRunExists(runs, scope, cadence, now)
    ensures RecentRunExists(runs, scope, cadence, later)
  {
    var id :| id in runs && IsRecent(runs[id], scope, cadence, now);
    assert IsRecent(runs[id], scope, cadence, later);
  }

  lemma {:induction false} RecentKept(runs: Runs, runs': Runs, scope: Scope, cadence: int, now: int)
    requires RecentRunExists(runs, scope, cadence, now) && forall id :: id in runs ==> id in runs' && runs'[id] == runs[id]
    ensures RecentRunExists(runs', scope, cadence, now)
  {
    var id :| id in runs && IsRecent(runs[id], scope, cadence, now);
    assert IsRecent(runs'[id], scope, cadence, now);
  }

  // ----- Spacing --------------------------------------------------------------------------------

  /** The cadence with which each run was created without force. */
  type Unforced = map<nat, int>

  /** Every run created without force is its spacing of days after every earlier run of its scope. */
  ghost predicate Spaced(runs: Runs, unforced: Unforced) {
    forall a, b :: a in runs && b in runs && b in unforced && a < b && ScopeOf(runs[a]) == ScopeOf(runs[b]) ==>
      Day(runs[b].scheduledAt) - Day(runs[a].scheduledAt) >= Spacing(unforced[b])
  }

  lemma {:induction false} SpacedStep(runs: Runs, unforced: Unforced, id: nat, run: CrawlRun, cadence: int)
    requires Spaced(runs, unforced) && forall a :: a in runs ==> a < id
    requires !RecentRunExists(runs, ScopeOf(run), cadence, run.scheduledAt)
    ensures Spaced(runs[id := run], unforced[id := cadence])
  {
    forall a | a in runs && ScopeOf(runs[a]) == ScopeOf(run)
      ensures Day(run.scheduledAt) - Day(runs[a].scheduledAt) >= Spacing(cadence)
    {
      assert !IsRecent(runs[a], ScopeOf(run), cadence, run.scheduledAt);
      NotRecentIsSpaced(runs[a], ScopeOf(run), cadence, run.scheduledAt);
    }
  }

  // ----- One job per run ------------------------------------------------------------------------

  /** Slugs identify retailers, so a scheduled job's key names a run of its scope and day. */
  ghost predicate KeyedByRun(runs: Runs, jobs: Jobs, slugs: map<string, nat>) {
    forall j :: j in jobs && jobs[j].key.Some? ==>
      var key := jobs[j].key.value;
      && key.slug in slugs
      && exists id :: id in runs && RunOfKey(runs[id], key, slugs[key.slug])
  }

  ghost predicate RunOfKey(run: CrawlRun, key: Key, retailer: nat) {
    ScopeOf(run) == Scope(retailer, key.store, key.runType) && Day(run.scheduledAt) == key.day
  }

  /** Every run created without force has a job of its own. */
  ghost predicate HaveJobs(jobs: Jobs, unforced: Unforced) {
    forall r :: r in unforced ==> exists j :: j in jobs && jobs[j].run == r
  }

  /** No two jobs belong to one run. */
  ghost predicate OneJobEach(jobs: Jobs) {
    forall a, b :: a in jobs && b in jobs && jobs[a].run == jobs[b].run ==> a == b
  }

  lemma {:induction false} KeyMeansRecent(runs: Runs, jobs: Jobs, slugs: map<string, nat>, slug: string, scope: Scope, cadence: int,
                                          now: int, j: nat)
    requires KeyedByRun(runs, jobs, slugs) && slug in slugs && slugs[slug] == scope.retailer && j in jobs
    ensures jobs[j].key == Some(Key(slug, scope.store, scope.runType, Day(now))) ==> RecentRunExists(runs, scope, cadence, now)
  {
    var key := Key(slug, scope.store, scope.runType, Day(now));
    if jobs[j].key == Some(key) {
      var id :| id in runs && RunOfKey(runs[id], key, scope.retailer);
      NotRecentIsSpaced(runs[id], scope, cadence, now);
      assert IsRecent(runs[id], scope, cadence, now);
    }
  }

  /** When no run of the scope was made today, its key is new. */
  lemma {:induction false} KeyIsFresh(runs: Runs, jobs: Jobs, slugs: map<string, nat>, slug: string, scope: Scope, cadence: int, now: int)
    requires KeyedByRun(runs, jobs, slugs) && slug in slugs && slugs[slug] == scope.retailer
    requires !RecentRunExists(runs, scope, cadence, now)
    ensures forall j :: j in jobs ==> jobs[j].key != Some(Key(slug, scope.store, scope.runType, Day(now)))
  {
    forall j | j in jobs ensures jobs[j].key != Some(Key(slug, scope.store, scope.runType, Day(now))) {
      KeyMeansRecent(runs, jobs, slugs, slug, scope, cadence, now, j);
    }
  }

  /** A job with the key exists. */
  ghost predicate Enqueued(jobs: Jobs, key: Key) {
    exists j :: j in jobs && jobs[j].key == Some(key)
  }

  /** What holds of runs and jobs between the steps of the scheduler. */
  ghost predicate Consistent(runs: Runs, jobs: Jobs, slugs: map<string, nat>, unforced: Unforced) {
    && Spaced(runs, unforced)
    && (forall r :: r in unforced ==> r in runs)
    && KeyedByRun(runs, jobs, slugs)
    && HaveJobs(jobs, unforced)
    && OneJobEach(jobs)
  }

  // ----- What a pass adds -----------------------------------------------------------------------

  /** The runs, the jobs and the runs created without force at one moment. */
  datatype Book = Book(runs: Runs, jobs: Jobs, unforced: Unforced)

  predicate IsNew(b: Book, b': Book, r: nat) {
    r in b'.runs && r !in b.runs
  }

  /** Runs and jobs are only added, every run at the instant, every job for a new run, and unforced runs are recorded as such. */
  ghost predicate Adds(b: Book, b': Book, now: int, force: bool) {
    && Grown(b.runs, b'.runs)
    && (forall r :: IsNew(b, b', r) ==> b'.runs[r].scheduledAt == now && (r in b'.unforced <==> !force))
    && (forall r :: r in b.unforced ==> r in b'.unforced && b'.unforced[r] == b.unforced[r])
    && (forall r :: r in b'.unforced ==> r in b.unforced || IsNew(b, b', r))
    && AddsJobs(b, b')
  }

  ghost predicate AddsJobs(b: Book, b': Book) {
    && (forall j :: j in b.jobs ==> j in b'.jobs && b'.jobs[j] == b.jobs[j])
    && (forall j :: j in b'.jobs && j !in b.jobs ==> IsNew(b, b', b'.jobs[j].run) && b'.jobs[j].status.Queued?)
  }

  /** Every new run was due: no run of its scope lay within the cadence it is recorded with. */
  ghost predicate AddsDue(b: Book, b': Book, now: int) {
    forall r :: IsNew(b, b', r) ==> r in b'.unforced && !RecentRunExists(b.runs, ScopeOf(b'.runs[r]), b'.unforced[r], now)
  }

  lemma {:induction false} AddsTwice(a: Book, b: Book, c: Book, now: int, force: bool)
    requires Adds(a, b, now, force) && Adds(b, c, now, force) && forall r :: r in a.unforced ==> r in a.runs
    ensures Adds(a, c, now, force)
  {
    forall j | j in c.jobs && j !in a.jobs ensures IsNew(a, c, c.jobs[j].run) && c.jobs[j].status.Queued? {
      if j in b.jobs {
        assert IsNew(a, b, b.jobs[j].run);
      } else {
        assert IsNew(b, c, c.jobs[j].run);
      }
    }
    forall r | IsNew(a, c, r) ensures c.runs[r].scheduledAt == now && (r in c.unforced <==> !force) {
      assert IsNew(a, b, r) || IsNew(b, c, r);
      if IsNew(a, b, r) {
        assert !IsNew(b, c, r);
      }
    }
  }

  lemma {:induction false} AddsNothing(b: Book, now: int, force: bool)
    ensures Adds(b, b, now, force) && AddsDue(b, b, now)
  {
  }

  lemma {:induction false} DueTwice(a: Book, b: Book, c: Book, now: int)
    requires Adds(a, b, now, false) && Adds(b, c, now, false) && AddsDue(a, b, now) && AddsDue(b, c, now)
    ensures AddsDue(a, c, now)
  {
    forall r | IsNew(a, c, r)
      ensures r in c.unforced && !RecentRunExists(a.runs, ScopeOf(c.runs[r]), c.unforced[r], now)
    {
      if IsNew(a, b, r) {
        assert c.unforced[r] == b.unforced[r] && c.runs[r] == b.runs[r];
      } else {
        assert IsNew(b, c, r);
        NotRecentBefore(a.runs, b.runs, ScopeOf(c.runs[r]), c.unforced[r], now);
      }
    }
  }

  lemma {:induction false} NotRecentBefore(runs: Runs, runs': Runs, scope: Scope, cadence: int, now: int)
    requires Grown(runs, runs') && !RecentRunExists(runs', scope, cadence, now)
    ensures !RecentRunExists(runs, scope, cadence, now)
  {
    if RecentRunExists(runs, scope, cadence, now) {
      RecentKept(runs, runs', scope, cadence, now);
    }
  }

  // ----- One store ------------------------------------------------------------------------------

  ghost predicate HasJob(jobs: Jobs, run: nat) {
    exists j :: j in jobs && jobs[j].run == run
  }

  function KeyFor(slug: string, run: CrawlRun): Key {
    Key(slug, run.store, run.runType, Day(run.scheduledAt))
  }

  /** The scope is one of the first `n` run types of the store. */
  predicate InStore(scope: Scope, retailer: nat, store: Option<nat>, f: Frequency, n: nat)
    requires n <= |f.runTypes|
  {
    scope.retailer == retailer && scope.store == store && scope.runType in f.runTypes[..n]
  }

  ghost predicate NewInStore(b: Book, b': Book, slug: string, retailer: nat, store: Option<nat>, f: Frequency, n: nat)
    requires n <= |f.runTypes|
  {
    && (forall r :: IsNew(b, b', r) ==>
          && InStore(ScopeOf(b'.runs[r]), retailer, store, f, n)
          && (r in b'.unforced ==> b'.unforced[r] == CadenceFor(f, b'.runs[r].runType)))
    && (forall j :: j in b'.jobs && j !in b.jobs && b'.jobs[j].run in b'.runs ==>
          b'.jobs[j].key == Some(KeyFor(slug, b'.runs[b'.jobs[j].run])))
  }

  predicate DistinctTypes(f: Frequency) {
    forall i, j | 0 <= i < j < |f.runTypes| :: f.runTypes[i] != f.runTypes[j]
  }

  /** A new run has a job exactly when its key was not enqueued before the pass. */
  ghost predicate JobsWhereNewKeys(b: Book, b': Book, slug: string) {
    forall r :: IsNew(b, b', r) ==> (HasJob(b'.jobs, r) <==> !Enqueued(b.jobs, KeyFor(slug, b'.runs[r])))
  }

  /** The state of a store pass after the first `n` run types. */
  ghost predicate StorePass(b: Book, b': Book, slug: string, retailer: nat, store: Option<nat>, f: Frequency, n: nat, now: int, force: bool)
    requires n <= |f.runTypes|
  {
    && Adds(b, b', now, force)
    && NewInStore(b, b', slug, retailer, store, f, n)
    && AllRecent(b'.runs, retailer, store, f, n, now)
    && (force ==> |b'.runs| == |b.runs| + n)
    && (!force ==> AddsDue(b, b', now))
    && (DistinctTypes(f) ==> JobsWhereNewKeys(b, b', slug))
  }

  /** One run was created, with a job if its key was new. */
  ghost predicate Creates(b: Book, b': Book, slug: string, scope: Scope, f: Frequency, now: int, force: bool, run: nat) {
    && run !in b.runs && b'.runs == b.runs[run := CrawlRun(scope.retailer, scope.store, scope.runType, now)]
    && b'.unforced == (if force then b.unforced else b.unforced[run := CadenceFor(f, scope.runType)])
    && var key := KeyFor(slug, b'.runs[run]);
       if Enqueued(b.jobs, key) then b'.jobs == b.jobs
       else exists j :: j !in b.jobs && EnqueuedAs(b.jobs, b'.jobs, j, run, key)
  }

  ghost predicate EnqueuedAs(jobs: Jobs, jobs': Jobs, j: nat, run: nat, key: Key) {
    j in jobs' && jobs' == jobs[j := jobs'[j]] && jobs'[j].run == run && jobs'[j].status.Queued? && jobs'[j].key == Some(key)
  }

  lemma {:induction false} CreatesAdds(b: Book, b': Book, slug: string, scope: Scope, f: Frequency, now: int, force: bool, run: nat)
    requires Creates(b, b', slug, scope, f, now, force, run) && run !in b.unforced
    requires forall j :: j in b.jobs ==> b.jobs[j].run in b.runs
    ensures Adds(b, b', now, force)
    ensures forall r :: IsNew(b, b', r) <==> r == run
    ensures HasJob(b'.jobs, run) <==> !Enqueued(b.jobs, KeyFor(slug, b'.runs[run]))
  {
  }

  lemma {:induction false} StorePassSkips(b: Book, b': Book, slug: string, retailer: nat, store: Option<nat>, f: Frequency, n: nat, now: int)
    requires n < |f.runTypes| && StorePass(b, b', slug, retailer, store, f, n, now, false)
    requires RecentRunExists(b'.runs, Scope(retailer, store, f.runTypes[n]), CadenceFor(f, f.runTypes[n]), now)
    ensures StorePass(b, b', slug, retailer, store, f, n + 1, now, false)
  {
    forall r | IsNew(b, b', r) ensures InStore(ScopeOf(b'.runs[r]), retailer, store, f, n + 1) {
      assert InStore(ScopeOf(b'.runs[r]), retailer, store, f, n);
      assert f.runTypes[..n] <= f.runTypes[..n + 1];
    }
  }

  /** The new run of type `n` gets its job by whether its key was enqueued before the whole pass. */
  lemma {:induction false} KeyNewInPass(b: Book, c: Book, slug: string, retailer: nat, store: Option<nat>, f: Frequency, n: nat, now: int,
                                        force: bool, run: CrawlRun)
    requires n < |f.runTypes| && DistinctTypes(f) && StorePass(b, c, slug, retailer, store, f, n, now, force)
    requires run == CrawlRun(retailer, store, f.runTypes[n], now)
    ensures Enqueued(c.jobs, KeyFor(slug, run)) <==> Enqueued(b.jobs, KeyFor(slug, run))
  {
    if Enqueued(b.jobs, KeyFor(slug, run)) {
      var j :| j in b.jobs && b.jobs[j].key == Some(KeyFor(slug, run));
      assert j in c.jobs;
    }
    forall j | j in c.jobs && j !in b.jobs ensures c.jobs[j].key != Some(KeyFor(slug, run)) {
      assert IsNew(b, c, c.jobs[j].run);
      assert InStore(ScopeOf(c.runs[c.jobs[j].run]), retailer, store, f, n);
    }
  }

  lemma {:induction false} StorePassCreates(b: Book, c: Book, d: Book, slug: string, retailer: nat, store: Option<nat>, f: Frequency, n: nat,
                                            now: int, force: bool, run: nat)
    requires n < |f.runTypes| && StorePass(b, c, slug, retailer, store, f, n, now, force)
    requires Creates(c, d, slug, Scope(retailer, store, f.runTypes[n]), f, now, force, run)
    requires run !in c.unforced && (forall j :: j in c.jobs ==> c.jobs[j].run in c.runs) && (forall r :: r in b.unforced ==> r in b.runs)
    requires !force ==> !RecentRunExists(c.runs, Scope(retailer, store, f.runTypes[n]), CadenceFor(f, f.runTypes[n]), now)
    ensures StorePass(b, d, slug, retailer, store, f, n + 1, now, force)
  {
    var scope := Scope(retailer, store, f.runTypes[n]);
    CreatesAdds(c, d, slug, scope, f, now, force, run);
    AddsTwice(b, c, d, now, force);
    CreatedIsRecent(c.runs, d.runs, run, scope, retailer, store, f, n, now);
    CreatedInStore(b, c, d, slug, retailer, store, f, n, now, force, run);
    if !force {
      assert AddsDue(c, d, now);
      DueTwice(b, c, d, now);
    }
    if DistinctTypes(f) {
      KeyNewInPass(b, c, slug, retailer, store, f, n, now, force, d.runs[run]);
      CreatedWhereNewKeys(b, c, d, slug, run);
    }
  }

  lemma {:induction false} CreatedInStore(b: Book, c: Book, d: Book, slug: string, retailer: nat, store: Option<nat>, f: Frequency, n: nat,
                                          now: int, force: bool, run: nat)
    requires n < |f.runTypes| && NewInStore(b, c, slug, retailer, store, f, n) && Adds(b, c, now, force)
    requires Creates(c, d, slug, Scope(retailer, store, f.runTypes[n]), f, now, force, run)
    requires run !in c.unforced && forall j :: j in c.jobs ==> c.jobs[j].run in c.runs
    ensures NewInStore(b, d, slug, retailer, store, f, n + 1)
  {
    PrefixStep(f.runTypes, n);
    forall r | IsNew(b, d, r)
      ensures InStore(ScopeOf(d.runs[r]), retailer, store, f, n + 1)
      ensures r in d.unforced ==> d.unforced[r] == CadenceFor(f, d.runs[r].runType)
    {
      if r != run {
        assert IsNew(b, c, r);
        assert InStore(ScopeOf(c.runs[r]), retailer, store, f, n);
      }
    }
    forall j | j in d.jobs && j !in b.jobs && d.jobs[j].run in d.runs ensures d.jobs[j].key == Some(KeyFor(slug, d.runs[d.jobs[j].run])) {
      if j in c.jobs {
        assert d.jobs[j] == c.jobs[j] && c.jobs[j].run in c.runs;
      }
    }
  }

  lemma {:induction false} CreatedWhereNewKeys(b: Book, c: Book, d: Book, slug: string, run: nat)
    requires JobsWhereNewKeys(b, c, slug) && Grown(b.runs, c.runs)
    requires run !in c.runs && run in d.runs && d.runs == c.runs[run := d.runs[run]]
    requires var key := KeyFor(slug, d.runs[run]);
      && (Enqueued(c.jobs, key) <==> Enqueued(b.jobs, key))
      && if Enqueued(c.jobs, key) then d.jobs == c.jobs else exists j :: j !in c.jobs && EnqueuedAs(c.jobs, d.jobs, j, run, key)
    requires forall j :: j in c.jobs ==> c.jobs[j].run in c.runs
    ensures JobsWhereNewKeys(b, d, slug)
  {
    forall r | IsNew(b, d, r) ensures HasJob(d.jobs, r) <==> !Enqueued(b.jobs, KeyFor(slug, d.runs[r])) {
      if r != run {
        assert IsNew(b, c, r);
        assert HasJob(d.jobs, r) <==> HasJob(c.jobs, r) by {
          JobsOfOthers(c.jobs, d.jobs, slug, d.runs[run], run, r);
        }
      }
    }
  }

  lemma {:induction false} JobsOfOthers(jobs: Jobs, jobs': Jobs, slug: string, record: CrawlRun, run: nat, other: nat)
    requires jobs' == jobs || exists j :: j !in jobs && EnqueuedAs(jobs, jobs', j, run, KeyFor(slug, record))
    requires other != run
    ensures HasJob(jobs', other) <==> HasJob(jobs, other)
  {
    if HasJob(jobs, other) {
      var j :| j in jobs && jobs[j].run == other;
      assert j in jobs' && jobs'[j].run == other;
    }
    if HasJob(jobs', other) {
      var j :| j in jobs' && jobs'[j].run == other;
      assert j in jobs;
    }
  }

  // ----- Retailers and passes -------------------------------------------------------------------

  /** The scope is a run type of one of the retailer's stores. */
  ghost predicate InStores(scope: Scope, retailer: nat, stores: seq<Option<nat>>, f: Frequency) {
    exists k | 0 <= k < |stores| :: InStore(scope, retailer, stores[k], f, |f.runTypes|)
  }

  ghost predicate NewInStores(b: Book, b': Book, retailer: nat, stores: seq<Option<nat>>, f: Frequency) {
    forall r :: IsNew(b, b', r) ==>
      && InStores(ScopeOf(b'.runs[r]), retailer, stores, f)
      && (r in b'.unforced ==> b'.unforced[r] == CadenceFor(f, b'.runs[r].runType))
  }

  lemma {:induction false} MoreStores(scope: Scope, retailer: nat, stores: seq<Option<nat>>, store: Option<nat>, f: Frequency)
    ensures InStores(scope, retailer, stores, f) ==> InStores(scope, retailer, stores + [store], f)
    ensures InStore(scope, retailer, store, f, |f.runTypes|) ==> InStores(scope, retailer, stores + [store], f)
  {
    var longer := stores + [store];
    if InStores(scope, retailer, stores, f) {
      var k :| 0 <= k < |stores| && InStore(scope, retailer, stores[k], f, |f.runTypes|);
      assert InStore(scope, retailer, longer[k], f, |f.runTypes|);
    }
    if InStore(scope, retailer, store, f, |f.runTypes|) {
      assert InStore(scope, retailer, longer[|stores|], f, |f.runTypes|);
    }
  }

  /** The effect of a pass over some stores of a retailer. */
  ghost predicate StoresPass(b: Book, b': Book, retailer: nat, stores: seq<Option<nat>>, f: Frequency, now: int, force: bool) {
    && Adds(b, b', now, force)
    && NewInStores(b, b', retailer, stores, f)
    && StoresUpToDate(b'.runs, retailer, stores, f, now)
    && (force ==> |b'.runs| == |b.runs| + |stores| * |f.runTypes|)
    && (!force ==> AddsDue(b, b', now))
  }

  lemma {:induction false} StoresPassStep(a: Book, b: Book, c: Book, slug: string, retailer: nat, stores: seq<Option<nat>>, store: Option<nat>,
                                          f: Frequency, now: int, force: bool)
    requires StoresPass(a, b, retailer, stores, f, now, force) && StorePass(b, c, slug, retailer, store, f, |f.runTypes|, now, force)
    requires forall r :: r in a.unforced ==> r in a.runs
    ensures StoresPass(a, c, retailer, stores + [store], f, now, force)
  {
    AddsTwice(a, b, c, now, force);
    if !force {
      DueTwice(a, b, c, now);
    }
    NewInMoreStores(a, b, c, slug, retailer, stores, store, f, now, force);
    MoreUpToDate(b.runs, c.runs, retailer, stores, store, f, now);
    if force {
      OneMoreTimes(|a.runs|, |b.runs|, |c.runs|, |stores|, |f.runTypes|);
    }
  }

  lemma {:induction false} MoreUpToDate(before: Runs, after: Runs, retailer: nat, stores: seq<Option<nat>>, store: Option<nat>, f: Frequency, now: int)
    requires Grown(before, after) && StoresUpToDate(before, retailer, stores, f, now)
    requires AllRecent(after, retailer, store, f, |f.runTypes|, now)
    ensures StoresUpToDate(after, retailer, stores + [store], f, now)
  {
    StoresKept(before, after, retailer, stores, f, now);
  }

  lemma {:induction false} NewInMoreStores(a: Book, b: Book, c: Book, slug: string, retailer: nat, stores: seq<Option<nat>>, store: Option<nat>,
                                           f: Frequency, now: int, force: bool)
    requires NewInStores(a, b, retailer, stores, f) && NewInStore(b, c, slug, retailer, store, f, |f.runTypes|)
    requires Adds(a, b, now, force) && Adds(b, c, now, force)
    ensures NewInStores(a, c, retailer, stores + [store], f)
  {
    forall r | IsNew(a, c, r)
      ensures InStores(ScopeOf(c.runs[r]), retailer, stores + [store], f)
      ensures r in c.unforced ==> c.unforced[r] == CadenceFor(f, c.runs[r].runType)
    {
      MoreStores(ScopeOf(c.runs[r]), retailer, stores, store, f);
      assert IsNew(a, b, r) || IsNew(b, c, r);
    }
  }

  lemma {:induction false} OneMoreTimes(a: nat, b: nat, c: nat, m: nat, n: nat)
    requires b == a + m * n && c == b + n
    ensures c == a + (m + 1) * n
  {
  }

  /** The scope is a run type of a store of one of the retailers that are not blocked. */
  ghost predicate InPass(scope: Scope, config: Config, retailers: seq<Retailer>, cadence: int) {
    exists i | 0 <= i < |retailers| :: !retailers[i].blocked && InRetailer(scope, config, retailers[i], cadence)
  }

  ghost predicate InRetailer(scope: Scope, config: Config, retailer: Retailer, cadence: int) {
    var f := FrequencyFor(config, retailer.slug);
    InStores(scope, retailer.id, StoresFor(retailer), f) && cadence == CadenceFor(f, scope.runType)
  }

  ghost predicate NewInPass(b: Book, b': Book, config: Config, retailers: seq<Retailer>) {
    forall r :: IsNew(b, b', r) ==> r in b'.unforced && InPass(ScopeOf(b'.runs[r]), config, retailers, b'.unforced[r])
  }

  /**
    A daily pass: every new run is due, of a configured scope of an unblocked retailer, and recorded with its cadence;
    afterwards nothing is due.
   */
  ghost predicate DailyPass(b: Book, b': Book, config: Config, retailers: seq<Retailer>, now: int) {
    && Adds(b, b', now, false) && AddsDue(b, b', now)
    && NewInPass(b, b', config, retailers)
    && AllUpToDate(b'.runs, config, retailers, now)
  }

  lemma {:induction false} MoreRetailers(scope: Scope, config: Config, retailers: seq<Retailer>, retailer: Retailer, cadence: int)
    ensures InPass(scope, config, retailers, cadence) ==> InPass(scope, config, retailers + [retailer], cadence)
    ensures !retailer.blocked && InRetailer(scope, config, retailer, cadence) ==> InPass(scope, config, retailers + [retailer], cadence)
  {
    var longer := retailers + [retailer];
    if InPass(scope, config, retailers, cadence) {
      var i :| 0 <= i < |retailers| && !retailers[i].blocked && InRetailer(scope, config, retailers[i], cadence);
      assert InRetailer(scope, config, longer[i], cadence);
    }
    if !retailer.blocked && InRetailer(scope, config, retailer, cadence) {
      assert InRetailer(scope, config, longer[|retailers|], cadence);
    }
  }

  lemma {:induction false} DailyPassSkips(a: Book, b: Book, config: Config, retailers: seq<Retailer>, retailer: Retailer, now: int)
    requires DailyPass(a, b, config, retailers, now) && retailer.blocked
    ensures DailyPass(a, b, config, retailers + [retailer], now)
  {
    forall r | IsNew(a, b, r) ensures InPass(ScopeOf(b.runs[r]), config, retailers + [retailer], b.unforced[r]) {
      MoreRetailers(ScopeOf(b.runs[r]), config, retailers, retailer, b.unforced[r]);
    }
  }

  lemma {:induction false} DailyPassStep(a: Book, b: Book, c: Book, config: Config, retailers: seq<Retailer>, retailer: Retailer, now: int)
    requires DailyPass(a, b, config, retailers, now) && !retailer.blocked && forall r :: r in a.unforced ==> r in a.runs
    requires StoresPass(b, c, retailer.id, StoresFor(retailer), FrequencyFor(config, retailer.slug), now, false)
    ensures DailyPass(a, c, config, retailers + [retailer], now)
  {
    AddsTwice(a, b, c, now, false);
    DueTwice(a, b, c, now);
    NewInMoreRetailers(a, b, c, config, retailers, retailer, now);
    MoreAllUpToDate(b.runs, c.runs, config, retailers, retailer, now);
  }

  lemma {:induction false} MoreAllUpToDate(before: Runs, after: Runs, config: Config, retailers: seq<Retailer>, retailer: Retailer, now: int)
    requires Grown(before, after) && AllUpToDate(before, config, retailers, now) && UpToDate(after, config, retailer, now)
    ensures AllUpToDate(after, config, retailers + [retailer], now)
  {
    AllKept(before, after, config, retailers, now);
  }

  lemma {:induction false} NewInMoreRetailers(a: Book, b: Book, c: Book, config: Config, retailers: seq<Retailer>, retailer: Retailer, now: int)
    requires NewInPass(a, b, config, retailers) && !retailer.blocked
    requires NewInStores(b, c, retailer.id, StoresFor(retailer), FrequencyFor(config, retailer.slug))
    requires Adds(a, b, now, false) && Adds(b, c, now, false)
    ensures NewInPass(a, c, config, retailers + [retailer])
  {
    forall r | IsNew(a, c, r) ensures r in c.unforced && InPass(ScopeOf(c.runs[r]), config, retailers + [retailer], c.unforced[r]) {
      MoreRetailers(ScopeOf(c.runs[r]), config, retailers, retailer, c.unforced[r]);
      assert IsNew(a, b, r) || IsNew(b, c, r);
    }
  }

  /** After a daily pass, another one of the same day and configuration adds no run and no job. */
  lemma {:induction false} SecondPassAddsNothing(a: Book, b: Book, c: Book, config: Config, retailers: seq<Retailer>, now: int, later: int)
    requires DailyPass(a, b, config, retailers, now) && DailyPass(b, c, config, retailers, later) && Day(now) == Day(later)
    ensures c == b
  {
    AllSameDay(b.runs, config, retailers, now, later);
    forall r | r in c.runs ensures !IsNew(b, c, r) {
      if IsNew(b, c, r) {
        NothingIsDue(b.runs, config, retailers, ScopeOf(c.runs[r]), c.unforced[r], later);
      }
    }
    MapsEqual(c.runs, b.runs);
    MapsEqual(c.jobs, b.jobs);
    MapsEqual(c.unforced, b.unforced);
  }

  /** When all is up to date, no scope of the pass is due. */
  lemma {:induction false} NothingIsDue(runs: Runs, config: Config, retailers: seq<Retailer>, scope: Scope, cadence: int, now: int)
    requires AllUpToDate(runs, config, retailers, now) && InPass(scope, config, retailers, cadence)
    ensures RecentRunExists(runs, scope, cadence, now)
  {
    var i :| 0 <= i < |retailers| && !retailers[i].blocked && InRetailer(scope, config, retailers[i], cadence);
    var f, stores := FrequencyFor(config, retailers[i].slug), StoresFor(retailers[i]);
    var k :| 0 <= k < |stores| && InStore(scope, retailers[i].id, stores[k], f, |f.runTypes|);
    assert UpToDate(runs, config, retailers[i], now);
    assert AllRecent(runs, retailers[i].id, stores[k], f, |f.runTypes|, now);
    var n :| 0 <= n < |f.runTypes| && f.runTypes[n] == scope.runType;
    assert RecentRunExists(runs, Scope(retailers[i].id, stores[k], f.runTypes[n]), CadenceFor(f, f.runTypes[n]), now);
  }

  // ----- What a report accounts for -------------------------------------------------------------

  /** The run types of some stores. */
  function TypesIn(stores: seq<Option<nat>>, f: Frequency): nat {
    if stores == [] then 0 else TypesIn(stores[..|stores| - 1], f) + |f.runTypes|
  }

  /** The run types of a retailer, none if it is blocked. */
  function TypesOf(config: Config, retailer: Retailer): nat {
    if retailer.blocked then 0 else TypesIn(StoresFor(retailer), FrequencyFor(config, retailer.slug))
  }

  function TypesOver(config: Config, retailers: seq<Retailer>): nat {
    if retailers == [] then 0
    else TypesOver(config, retailers[..|retailers| - 1]) + TypesOf(config, retailers[|retailers| - 1])
  }

  function CountBlocked(retailers: seq<Retailer>): nat {
    if retailers == [] then 0
    else CountBlocked(retailers[..|retailers| - 1]) + if retailers[|retailers| - 1].blocked then 1 else 0
  }

  /** The report accounts for every run type of the retailers and for those that are blocked. */
  ghost predicate Accounts(report: Report, config: Config, retailers: seq<Retailer>) {
    Visited(report) == TypesOver(config, retailers) && report.skippedRetailers == CountBlocked(retailers)
  }

  lemma {:induction false} OneMoreStore(stores: seq<Option<nat>>, store: Option<nat>, f: Frequency)
    ensures TypesIn(stores + [store], f) == TypesIn(stores, f) + |f.runTypes|
  {
    assert (stores + [store])[..|stores|] == stores;
  }

  lemma {:induction false} AccountsStep(config: Config, retailers: seq<Retailer>, retailer: Retailer, before: Report, after: Report)
    requires after.skippedRetailers == before.skippedRetailers + if retailer.blocked then 1 else 0
    requires Visited(after) == Visited(before) + TypesOf(config, retailer)
    ensures Accounts(before, config, retailers) ==> Accounts(after, config, retailers + [retailer])
  {
    assert (retailers + [retailer])[..|retailers|] == retailers;
  }

  // ----- The scheduler --------------------------------------------------------------------------

  class Scheduler {
    const config: Config
    const slugs: map<string, nat>
    ghost var unforced: Unforced

    constructor (config: Config, slugs: map<string, nat>)
      ensures this.config == config && this.slugs == slugs && unforced == map[]
    {
      this.config, this.slugs := config, slugs;
      unforced := map[];
    }

    ghost predicate Valid(queue: Queue)
      reads this, queue
    {
      queue.Valid() && Consistent(queue.runs, queue.jobs, slugs, unforced)
    }

    ghost function BookOf(queue: Queue): Book
      reads this, queue
    {
      Book(queue.runs, queue.jobs, unforced)
    }

    /** Creates a run of the scope and enqueues its job; `created` tells whether the job is new. */
    method CreateWithJob(queue: Queue, slug: string, scope: Scope, f: Frequency, now: int, force: bool) returns (run: nat, created: bool)
      requires Valid(queue) && slug in slugs && slugs[slug] == scope.retailer
      requires !force ==> !RecentRunExists(queue.runs, scope, CadenceFor(f, scope.runType), now)
      modifies this, queue
      ensures Valid(queue)
      ensures Creates(old(BookOf(queue)), BookOf(queue), slug, scope, f, now, force, run)
      ensures created <==> !Enqueued(old(queue.jobs), Key(slug, scope.store, scope.runType, Day(now)))
      ensures !force ==> created
    {
      var key := Key(slug, scope.store, scope.runType, Day(now));
      var record := CrawlRun(scope.retailer, scope.store, scope.runType, now);
      ghost var cadence := CadenceFor(f, scope.runType);
      if !force {
        KeyIsFresh(queue.runs, queue.jobs, slugs, slug, scope, cadence, now);
      }
      ghost var jobs0 := queue.jobs;
      run := queue.CreateRun(record);
      var job;
      job, created := queue.Enqueue(run, f.priority, f.maxAttempts, now, Some(key));
      Keyed(old(queue.runs), jobs0, slugs, queue.runs, run, queue.jobs, job, key, created);
      HaveJobsKept(jobs0, queue.jobs, unforced);
      assert created ==> EnqueuedAs(jobs0, queue.jobs, job, run, key);
      if force {
        ForcedSpaced(old(queue.runs), unforced, run, record);
      } else {
        SpacedStep(old(queue.runs), unforced, run, record, cadence);
        HaveJobsStep(queue.jobs, unforced, run, job, cadence);
        unforced := unforced[run := cadence];
      }
    }

    /** One run type of a store: skipped if a recent run exists, unless forced. */
    method ScheduleType(queue: Queue, retailer: Retailer, store: Option<nat>, f: Frequency, k: nat, report0: Report, now: int, force: bool,
                        ghost b: Book) returns (report: Report)
      requires Valid(queue) && Known(slugs, retailer) && k < |f.runTypes|
      requires forall r :: r in b.unforced ==> r in b.runs
      requires StorePass(b, BookOf(queue), retailer.slug, retailer.id, store, f, k, now, force)
      modifies this, queue
      ensures Valid(queue)
      ensures StorePass(b, BookOf(queue), retailer.slug, retailer.id, store, f, k + 1, now, force)
      ensures report.runsCreated - report0.runsCreated == |queue.runs| - |old(queue.runs)| >= 0
      ensures report.jobsCreated - report0.jobsCreated == |queue.runs| - |old(queue.runs)|
      ensures report.skippedRetailers == report0.skippedRetailers && Visited(report) == Visited(report0) + 1
      ensures !force && RecentRunExists(old(queue.runs), Scope(retailer.id, store, f.runTypes[k]), CadenceFor(f, f.runTypes[k]), now) ==>
        BookOf(queue) == old(BookOf(queue))
    {
      ghost var before := BookOf(queue);
      var scope := Scope(retailer.id, store, f.runTypes[k]);
      if !force && RecentRunExists(queue.runs, scope, CadenceFor(f, f.runTypes[k]), now) {
        StorePassSkips(b, before, retailer.slug, retailer.id, store, f, k, now);
        return report0.(skippedExisting := report0.skippedExisting + 1);
      }
      var run, created := CreateWithJob(queue, retailer.slug, scope, f, now, force);
      StorePassCreates(b, before, BookOf(queue), retailer.slug, retailer.id, store, f, k, now, force, run);
      OneMore(before.runs, run, queue.runs[run]);
      report := report0.(runsCreated := report0.runsCreated + 1, jobsCreated := report0.jobsCreated + 1);
    }

    /** `_schedule_store`. */
    method ScheduleStore(queue: Queue, retailer: Retailer, store: Option<nat>, f: Frequency, report0: Report, now: int, force: bool)
      returns (report: Report)
      requires Valid(queue) && Known(slugs, retailer)
      modifies this, queue
      ensures Valid(queue)
      ensures StorePass(old(BookOf(queue)), BookOf(queue), retailer.slug, retailer.id, store, f, |f.runTypes|, now, force)
      ensures report.runsCreated - report0.runsCreated == |queue.runs| - |old(queue.runs)| >= 0
      ensures report.jobsCreated - report0.jobsCreated == |queue.runs| - |old(queue.runs)|
      ensures report.skippedRetailers == report0.skippedRetailers && Visited(report) == Visited(report0) + |f.runTypes|
      ensures !force && AllRecent(old(queue.runs), retailer.id, store, f, |f.runTypes|, now) ==> BookOf(queue) == old(BookOf(queue))
    {
      report := report0;
      ghost var b := BookOf(queue);
      StorePassStarts(b, retailer.slug, retailer.id, store, f, now, force);
      for k := 0 to |f.runTypes|
        invariant Valid(queue) && StorePass(b, BookOf(queue), retailer.slug, retailer.id, store, f, k, now, force)
        invariant report.runsCreated - report0.runsCreated == |queue.runs| - |b.runs| >= 0
        invariant report.jobsCreated - report0.jobsCreated == |queue.runs| - |b.runs|
        invariant report.skippedRetailers == report0.skippedRetailers && Visited(report) == Visited(report0) + k
        invariant !force && AllRecent(b.runs, retailer.id, store, f, |f.runTypes|, now) ==> BookOf(queue) == b
      {
        report := ScheduleType(queue, retailer, store, f, k, report, now, force, b);
      }
    }

    /** The stores of one retailer. */
    method ScheduleRetailer(queue: Queue, retailer: Retailer, report0: Report, now: int, force: bool) returns (report: Report)
      requires Valid(queue) && Known(slugs, retailer)
      modifies this, queue
      ensures Valid(queue)
      ensures StoresPass(old(BookOf(queue)), BookOf(queue), retailer.id, StoresFor(retailer), FrequencyFor(config, retailer.slug), now, force)
      ensures report.runsCreated - report0.runsCreated == |queue.runs| - |old(queue.runs)| >= 0
      ensures report.jobsCreated - report0.jobsCreated == |queue.runs| - |old(queue.runs)|
      ensures report.skippedRetailers == report0.skippedRetailers
      ensures Visited(report) == Visited(report0) + TypesIn(StoresFor(retailer), FrequencyFor(config, retailer.slug))
      ensures !force && UpToDate(old(queue.runs), config, retailer, now) ==> BookOf(queue) == old(BookOf(queue))
    {
      var f, stores := FrequencyFor(config, retailer.slug), StoresFor(retailer);
      report := report0;
      ghost var b := BookOf(queue);
      AddsNothing(b, now, force);
      for k := 0 to |stores|
        invariant Valid(queue) && StoresPass(b, BookOf(queue), retailer.id, stores[..k], f, now, force)
        invariant report.runsCreated - report0.runsCreated == |queue.runs| - |b.runs| >= 0
        invariant report.jobsCreated - report0.jobsCreated == |queue.runs| - |b.runs|
        invariant report.skippedRetailers == report0.skippedRetailers
        invariant Visited(report) == Visited(report0) + TypesIn(stores[..k], f)
        invariant !force && StoresUpToDate(b.runs, retailer.id, stores, f, now) ==> BookOf(queue) == b
      {
        ghost var before := BookOf(queue);
        report := ScheduleStore(queue, retailer, stores[k], f, report, now, force);
        StoresPassStep(b, before, BookOf(queue), retailer.slug, retailer.id, stores[..k], stores[k], f, now, force);
        PrefixStep(stores, k);
        OneMoreStore(stores[..k], stores[k], f);
      }
      FullPrefix(stores);
    }

    /** One retailer of a daily pass, skipped if it is blocked. */
    method ScheduleNext(queue: Queue, ghost done: seq<Retailer>, retailer: Retailer, report0: Report, now: int, ghost b: Book) returns (report: Report)
      requires Valid(queue) && Known(slugs, retailer) && forall r :: r in b.unforced ==> r in b.runs
      requires DailyPass(b, BookOf(queue), config, done, now)
      modifies this, queue
      ensures Valid(queue) && DailyPass(b, BookOf(queue), config, done + [retailer], now)
      ensures report.runsCreated - report0.runsCreated == |queue.runs| - |old(queue.runs)|
      ensures report.jobsCreated - report0.jobsCreated == |queue.runs| - |old(queue.runs)|
      ensures Accounts(report0, config, done) ==> Accounts(report, config, done + [retailer])
      ensures retailer.blocked || UpToDate(old(queue.runs), config, retailer, now) ==> BookOf(queue) == old(BookOf(queue))
    {
      ghost var before := BookOf(queue);
      if retailer.blocked {
        DailyPassSkips(b, before, config, done, retailer, now);
        report := report0.(skippedRetailers := report0.skippedRetailers + 1);
      } else {
        report := ScheduleRetailer(queue, retailer, report0, now, false);
        DailyPassStep(b, before, BookOf(queue), config, done, retailer, now);
      }
      AccountsStep(config, done, retailer, report0, report);
    }

    /** `schedule_daily`; `locked` tells whether the scheduler lock was acquired. */
    method ScheduleDaily(queue: Queue, retailers: seq<Retailer>, locked: bool, now: int) returns (report: Report)
      requires Valid(queue) && forall i | 0 <= i < |retailers| :: Known(slugs, retailers[i])
      modifies this, queue
      ensures Valid(queue)
      ensures !locked ==> BookOf(queue) == old(BookOf(queue))
      ensures locked ==> DailyPass(old(BookOf(queue)), BookOf(queue), config, retailers, now)
      ensures AllUpToDate(old(queue.runs), config, retailers, now) ==> BookOf(queue) == old(BookOf(queue))
      ensures report.runsCreated == report.jobsCreated == |queue.runs| - |old(queue.runs)|
      ensures if locked then Accounts(report, config, retailers) else report == Report(0, 0, 0, 0)
    {
      report := Report(0, 0, 0, 0);
      if !locked {
        return;
      }
      ghost var b := BookOf(queue);
      AddsNothing(b, now, false);
      for k := 0 to |retailers|
        invariant Valid(queue) && DailyPass(b, BookOf(queue), config, retailers[..k], now)
        invariant report.runsCreated == report.jobsCreated == |queue.runs| - |b.runs|
        invariant Accounts(report, config, retailers[..k])
        invariant AllUpToDate(b.runs, config, retailers, now) ==> BookOf(queue) == b
      {
        PrefixStep(retailers, k);
        report := ScheduleNext(queue, retailers[..k], retailers[k], report, now, b);
      }
      FullPrefix(retailers);
    }

    /** A second pass on the same day visits everything again and leaves runs and jobs as the first one left them. */
    method ScheduleTwice(queue: Queue, retailers: seq<Retailer>, now: int, later: int) returns (second: Report, ghost middle: Book)
      requires Valid(queue) && forall i | 0 <= i < |retailers| :: Known(slugs, retailers[i])
      requires Day(now) == Day(later)
      modifies this, queue
      ensures Valid(queue) && BookOf(queue) == middle
      ensures DailyPass(old(BookOf(queue)), middle, config, retailers, now)
      ensures DailyPass(middle, middle, config, retailers, later)
      ensures second == Report(0, 0, TypesOver(config, retailers), CountBlocked(retailers))
    {
      var first := ScheduleDaily(queue, retailers, true, now);
      middle := BookOf(queue);
      AllSameDay(middle.runs, config, retailers, now, later);
      second := ScheduleDaily(queue, retailers, true, later);
      assert BookOf(queue) == middle && second.runsCreated == 0;
    }

    /** Forced passes over retailers, one after the other. */
    method ForceAll(queue: Queue, retailers: seq<Retailer>, now: int) returns (ghost books: seq<Book>)
      requires Valid(queue) && forall i | 0 <= i < |retailers| :: Known(slugs, retailers[i])
      modifies this, queue
      ensures Valid(queue) && ForcedPass(old(BookOf(queue)), BookOf(queue), config, retailers, now, books)
    {
      books := [BookOf(queue)];
      for i := 0 to |retailers|
        invariant Valid(queue) && |books| == i + 1 && books[0] == old(BookOf(queue)) && books[i] == BookOf(queue)
        invariant forall k | 0 <= k < i :: ForcedOne(books, config, retailers, now, k)
      {
        var report := ScheduleRetailer(queue, retailers[i], Report(0, 0, 0, 0), now, true);
        ghost var longer := books + [BookOf(queue)];
        ForcedKept(books, longer, config, retailers, now, i);
        books := longer;
      }
    }

    /** Any sequence of daily and forced passes; `trace` holds the books before, between and after them. */
    method RunPasses(queue: Queue, passes: seq<Pass>) returns (ghost trace: seq<Book>)
      requires Valid(queue)
      requires forall p, i | 0 <= p < |passes| && 0 <= i < |passes[p].retailers| :: Known(slugs, passes[p].retailers[i])
      modifies this, queue
      ensures Valid(queue)
      ensures |trace| == |passes| + 1 && trace[0] == old(BookOf(queue)) && trace[|passes|] == BookOf(queue)
      ensures forall p | 0 <= p < |passes| :: Passed(trace, config, passes, p)
    {
      trace := [BookOf(queue)];
      for p := 0 to |passes|
        invariant Valid(queue) && |trace| == p + 1 && trace[0] == old(BookOf(queue)) && trace[p] == BookOf(queue)
        invariant forall k | 0 <= k < p :: Passed(trace, config, passes, k)
      {
        var pass := passes[p];
        if pass.force {
          ghost var books := ForceAll(queue, pass.retailers, pass.now);
        } else {
          var report := ScheduleDaily(queue, pass.retailers, pass.locked, pass.now);
        }
        ghost var longer := trace + [BookOf(queue)];
        PassedKept(trace, longer, config, passes, p);
        trace := longer;
      }
    }
  }

  datatype Pass = Pass(retailers: seq<Retailer>, now: int, force: bool, locked: bool)

  ghost predicate ForcedOne(books: seq<Book>, config: Config, retailers: seq<Retailer>, now: int, k: nat)
    requires k < |retailers|
  {
    k + 1 < |books| && ForcedEffect(books[k], books[k + 1], config, retailers[k], now)
  }

  ghost predicate ForcedEffect(b: Book, b': Book, config: Config, retailer: Retailer, now: int) {
    StoresPass(b, b', retailer.id, StoresFor(retailer), FrequencyFor(config, retailer.slug), now, true)
  }

  /** One forced pass per retailer, from `b` to `b'` by way of the books. */
  ghost predicate ForcedPass(b: Book, b': Book, config: Config, retailers: seq<Retailer>, now: int, books: seq<Book>) {
    && |books| == |retailers| + 1 && books[0] == b && books[|retailers|] == b'
    && forall k | 0 <= k < |retailers| :: ForcedOne(books, config, retailers, now, k)
  }

  lemma {:induction false} ForcedKept(books: seq<Book>, longer: seq<Book>, config: Config, retailers: seq<Retailer>, now: int, n: nat)
    requires n < |retailers| && |books| == n + 1 && |longer| == n + 2 && books <= longer
    requires forall k | 0 <= k < n :: ForcedOne(books, config, retailers, now, k)
    requires ForcedEffect(longer[n], longer[n + 1], config, retailers[n], now)
    ensures forall k | 0 <= k < n + 1 :: ForcedOne(longer, config, retailers, now, k)
  {
    assert ForcedOne(longer, config, retailers, now, n);
    forall k | 0 <= k < n + 1 ensures ForcedOne(longer, config, retailers, now, k) {
      if k < n {
        ForcedStays(books, longer, config, retailers, now, k);
      }
    }
  }

  lemma {:induction false} ForcedStays(books: seq<Book>, longer: seq<Book>, config: Config, retailers: seq<Retailer>, now: int, k: nat)
    requires k < |retailers| && ForcedOne(books, config, retailers, now, k)
    requires books <= longer
    ensures ForcedOne(longer, config, retailers, now, k)
  {
  }

  /** The effect of one pass. */
  ghost predicate Passed(trace: seq<Book>, config: Config, passes: seq<Pass>, p: nat)
    requires p < |passes|
  {
    p + 1 < |trace| && PassEffect(trace[p], trace[p + 1], config, passes[p])
  }

  ghost predicate PassEffect(b: Book, b': Book, config: Config, pass: Pass) {
    if pass.force then exists books :: ForcedPass(b, b', config, pass.retailers, pass.now, books)
    else if pass.locked then DailyPass(b, b', config, pass.retailers, pass.now)
    else b' == b
  }

  lemma {:induction false} PassedKept(trace: seq<Book>, longer: seq<Book>, config: Config, passes: seq<Pass>, n: nat)
    requires n < |passes| && |trace| == n + 1 && |longer| == n + 2 && longer[..n + 1] == trace
    requires forall k | 0 <= k < n :: Passed(trace, config, passes, k)
    requires PassEffect(longer[n], longer[n + 1], config, passes[n])
    ensures forall k | 0 <= k < n + 1 :: Passed(longer, config, passes, k)
  {
    forall k | 0 <= k < n ensures Passed(longer, config, passes, k) {
      assert Passed(trace, config, passes, k);
      assert longer[k] == trace[k] && longer[k + 1] == trace[k + 1];
    }
  }

  lemma {:induction false} StorePassStarts(b: Book, slug: string, retailer: nat, store: Option<nat>, f: Frequency, now: int, force: bool)
    ensures StorePass(b, b, slug, retailer, store, f, 0, now, force)
  {
    AddsNothing(b, now, force);
  }

  predicate Known(slugs: map<string, nat>, retailer: Retailer) {
    retailer.slug in slugs && slugs[retailer.slug] == retailer.id
  }

  /** The stores of a retailer, or the retailer as a whole if it has none. */
  function StoresFor(retailer: Retailer): seq<Option<nat>> {
    if retailer.stores == [] then [None] else seq(|retailer.stores|, i requires 0 <= i < |retailer.stores| => Some(retailer.stores[i]))
  }

  ghost predicate StoresUpToDate(runs: Runs, retailer: nat, stores: seq<Option<nat>>, f: Frequency, now: int) {
    forall k | 0 <= k < |stores| :: AllRecent(runs, retailer, stores[k], f, |f.runTypes|, now)
  }

  /** Every run type of every store of the retailer has a recent run. */
  ghost predicate UpToDate(runs: Runs, config: Config, retailer: Retailer, now: int) {
    StoresUpToDate(runs, retailer.id, StoresFor(retailer), FrequencyFor(config, retailer.slug), now)
  }

  ghost predicate AllUpToDate(runs: Runs, config: Config, retailers: seq<Retailer>, now: int) {
    forall i | 0 <= i < |retailers| :: !retailers[i].blocked ==> UpToDate(runs, config, retailers[i], now)
  }

  lemma {:induction false} StoresKept(before: Runs, after: Runs, retailer: nat, stores: seq<Option<nat>>, f: Frequency, now: int)
    requires Grown(before, after) && StoresUpToDate(before, retailer, stores, f, now)
    ensures StoresUpToDate(after, retailer, stores, f, now)
  {
    forall k | 0 <= k < |stores| ensures AllRecent(after, retailer, stores[k], f, |f.runTypes|, now) {
      AllRecentKept(before, after, retailer, stores[k], f, |f.runTypes|, now);
    }
  }

  lemma {:induction false} AllKept(before: Runs, after: Runs, config: Config, retailers: seq<Retailer>, now: int)
    requires Grown(before, after) && AllUpToDate(before, config, retailers, now)
    ensures AllUpToDate(after, config, retailers, now)
  {
    forall i | 0 <= i < |retailers| && !retailers[i].blocked ensures UpToDate(after, config, retailers[i], now) {
      StoresKept(before, after, retailers[i].id, StoresFor(retailers[i]), FrequencyFor(config, retailers[i].slug), now);
    }
  }

  lemma {:induction false} AllSameDay(runs: Runs, config: Config, retailers: seq<Retailer>, now: int, later: int)
    requires Day(now) == Day(later) && AllUpToDate(runs, config, retailers, now)
    ensures AllUpToDate(runs, config, retailers, later)
  {
    forall i | 0 <= i < |retailers| && !retailers[i].blocked ensures UpToDate(runs, config, retailers[i], later) {
      var f, stores := FrequencyFor(config, retailers[i].slug), StoresFor(retailers[i]);
      assert UpToDate(runs, config, retailers[i], now);
      forall k | 0 <= k < |stores| ensures AllRecent(runs, retailers[i].id, stores[k], f, |f.runTypes|, later) {
        AllRecentSameDay(runs, retailers[i].id, stores[k], f, now, later);
      }
    }
  }

  lemma {:induction false} AllRecentSameDay(runs: Runs, retailer: nat, store: Option<nat>, f: Frequency, now: int, later: int)
    requires Day(now) == Day(later) && AllRecent(runs, retailer, store, f, |f.runTypes|, now)
    ensures AllRecent(runs, retailer, store, f, |f.runTypes|, later)
  {
    forall k | 0 <= k < |f.runTypes|
      ensures RecentRunExists(runs, Scope(retailer, store, f.runTypes[k]), CadenceFor(f, f.runTypes[k]), later)
    {
      RecentAllDay(runs, Scope(retailer, store, f.runTypes[k]), CadenceFor(f, f.runTypes[k]), now, later);
    }
  }

  /** A run created without force is its spacing of days after every earlier run of its scope, and has one job. */
  lemma {:induction false} UnforcedRun(runs: Runs, jobs: Jobs, slugs: map<string, nat>, unforced: Unforced, run: nat)
    requires Consistent(runs, jobs, slugs, unforced) && run in unforced
    ensures forall earlier :: earlier in runs && earlier < run && ScopeOf(runs[earlier]) == ScopeOf(runs[run]) ==>
      Day(runs[run].scheduledAt) - Day(runs[earlier].scheduledAt) >= Spacing(unforced[run])
    ensures exists j :: j in jobs && jobs[j].run == run && forall k :: k in jobs && jobs[k].run == run ==> k == j
  {
    var j :| j in jobs && jobs[j].run == run;
    assert forall k :: k in jobs && jobs[k].run == run ==> k == j;
  }

  /** Runs are only added. */
  ghost predicate Grown(before: Runs, after: Runs) {
    forall id :: id in before ==> id in after && after[id] == before[id]
  }

  /** The first run types of a store all have a recent run. */
  ghost predicate AllRecent(runs: Runs, retailer: nat, store: Option<nat>, f: Frequency, n: nat, now: int)
    requires n <= |f.runTypes|
  {
    forall k | 0 <= k < n :: RecentRunExists(runs, Scope(retailer, store, f.runTypes[k]), CadenceFor(f, f.runTypes[k]), now)
  }

  lemma {:induction false} AllRecentKept(before: Runs, after: Runs, retailer: nat, store: Option<nat>, f: Frequency, n: nat, now: int)
    requires n <= |f.runTypes| && Grown(before, after) && AllRecent(before, retailer, store, f, n, now)
    ensures AllRecent(after, retailer, store, f, n, now)
  {
    forall k | 0 <= k < n ensures RecentRunExists(after, Scope(retailer, store, f.runTypes[k]), CadenceFor(f, f.runTypes[k]), now) {
      RecentKept(before, after, Scope(retailer, store, f.runTypes[k]), CadenceFor(f, f.runTypes[k]), now);
    }
  }

  lemma {:induction false} HaveJobsKept(jobs: Jobs, jobs': Jobs, unforced: Unforced)
    requires HaveJobs(jobs, unforced) && forall j :: j in jobs ==> j in jobs' && jobs'[j] == jobs[j]
    ensures HaveJobs(jobs', unforced)
  {
    forall r | r in unforced ensures exists j :: j in jobs' && jobs'[j].run == r {
      var j :| j in jobs && jobs[j].run == r;
      assert jobs'[j].run == r;
    }
  }

  lemma {:induction false} HaveJobsStep(jobs: Jobs, unforced: Unforced, run: nat, job: nat, cadence: int)
    requires HaveJobs(jobs, unforced) && job in jobs && jobs[job].run == run
    ensures HaveJobs(jobs, unforced[run := cadence])
  {
  }

  lemma {:induction false} NowIsRecent(run: CrawlRun, cadence: int, now: int)
    requires run.scheduledAt == now
    ensures IsRecent(run, ScopeOf(run), cadence, now)
  {
    NotRecentIsSpaced(run, ScopeOf(run), cadence, now);
  }

  lemma {:induction false} OneMore(before: Runs, run: nat, record: CrawlRun)
    requires run !in before
    ensures |before[run := record]| == |before| + 1
  {
    assert before[run := record].Keys == before.Keys + {run};
  }

  lemma {:induction false} CreatedIsRecent(before: Runs, after: Runs, run: nat, scope: Scope, retailer: nat, store: Option<nat>, f: Frequency,
                                           k: nat, now: int)
    requires k < |f.runTypes| && scope == Scope(retailer, store, f.runTypes[k])
    requires run !in before && after == before[run := CrawlRun(retailer, store, f.runTypes[k], now)]
    requires AllRecent(before, retailer, store, f, k, now)
    ensures AllRecent(after, retailer, store, f, k + 1, now)
    ensures |after| == |before| + 1
  {
    AllRecentKept(before, after, retailer, store, f, k, now);
    NowIsRecent(after[run], CadenceFor(f, f.runTypes[k]), now);
    assert IsRecent(after[run], scope, CadenceFor(f, f.runTypes[k]), now);
    OneMore(before, run, after[run]);
  }

  lemma {:induction false} ForcedSpaced(runs: Runs, unforced: Unforced, id: nat, run: CrawlRun)
    requires Spaced(runs, unforced) && (forall a :: a in runs ==> a < id) && id !in unforced
    ensures Spaced(runs[id := run], unforced)
  {
  }

  /** The job of the new run, or the one its key already had. */
  lemma {:induction false} Keyed(runs: Runs, jobs: Jobs, slugs: map<string, nat>, runs': Runs, run: nat, jobs': Jobs, job: nat, key: Key, created: bool)
    requires KeyedByRun(runs, jobs, slugs) && OneJobEach(jobs) && HaveRuns(jobs, runs)
    requires run !in runs && run in runs' && Grown(runs, runs')
    requires key.slug in slugs && RunOfKey(runs'[run], key, slugs[key.slug])
    requires !created ==> jobs' == jobs
    requires created ==> job !in jobs && job in jobs' && jobs' == jobs[job := jobs'[job]] && jobs'[job].run == run && jobs'[job].key == Some(key)
    ensures KeyedByRun(runs', jobs', slugs) && OneJobEach(jobs')
  {
    forall j | j in jobs' && jobs'[j].key.Some?
      ensures jobs'[j].key.value.slug in slugs
      ensures exists id :: id in runs' && RunOfKey(runs'[id], jobs'[j].key.value, slugs[jobs'[j].key.value.slug])
    {
      if j in jobs && jobs'[j] == jobs[j] {
        var id :| id in runs && RunOfKey(runs[id], jobs[j].key.value, slugs[jobs[j].key.value.slug]);
        assert RunOfKey(runs'[id], jobs'[j].key.value, slugs[jobs'[j].key.value.slug]);
      } else {
        assert RunOfKey(runs'[run], key, slugs[key.slug]);
      }
    }
  }

  /**
    A forced pass on a day on which the store's keys are all enqueued creates its runs and reports a job for each,
    but no job: exactly the runs whose key is new get one (StorePass, JobsWhereNewKeys).
   */
  method ForcedRunsWithoutJob(scheduler: Scheduler, queue: Queue, retailer: Retailer, store: Option<nat>, f: Frequency, now: int)
    returns (report: Report)
    requires scheduler.Valid(queue) && Known(scheduler.slugs, retailer) && DistinctTypes(f)
    requires forall k | 0 <= k < |f.runTypes| :: Enqueued(queue.jobs, Key(retailer.slug, store, f.runTypes[k], Day(now)))
    modifies scheduler, queue
    ensures scheduler.Valid(queue)
    ensures report.jobsCreated == report.runsCreated == |f.runTypes| == |queue.runs| - |old(queue.runs)|
    ensures forall r :: r in queue.runs && r !in old(queue.runs) ==> !HasJob(queue.jobs, r)
    ensures queue.jobs.Keys == old(queue.jobs).Keys
  {
    ghost var b := scheduler.BookOf(queue);
    report := scheduler.ScheduleStore(queue, retailer, store, f, Report(0, 0, 0, 0), now, true);
    NoNewKeysNoJobs(b, scheduler.BookOf(queue), retailer.slug, retailer.id, store, f, now);
  }

  lemma {:induction false} NoNewKeysNoJobs(b: Book, b': Book, slug: string, retailer: nat, store: Option<nat>, f: Frequency, now: int)
    requires StorePass(b, b', slug, retailer, store, f, |f.runTypes|, now, true) && DistinctTypes(f)
    requires forall k | 0 <= k < |f.runTypes| :: Enqueued(b.jobs, Key(slug, store, f.runTypes[k], Day(now)))
    ensures forall r :: IsNew(b, b', r) ==> !HasJob(b'.jobs, r)
    ensures b'.jobs.Keys == b.jobs.Keys
  {
    forall r | IsNew(b, b', r) ensures !HasJob(b'.jobs, r) {
      assert InStore(ScopeOf(b'.runs[r]), retailer, store, f, |f.runTypes|);
      FullPrefix(f.runTypes);
      var k :| 0 <= k < |f.runTypes| && f.runTypes[k] == b'.runs[r].runType;
      assert Enqueued(b.jobs, KeyFor(slug, b'.runs[r]));
    }
    NoJobsAdded(b, b');
  }

  lemma {:induction false} NoJobsAdded(b: Book, b': Book)
    requires AddsJobs(b, b') && forall r :: IsNew(b, b', r) ==> !HasJob(b'.jobs, r)
    ensures b'.jobs.Keys == b.jobs.Keys
  {
    forall j ensures j in b'.jobs.Keys <==> j in b.jobs.Keys {
      assert j in b'.jobs ==> HasJob(b'.jobs, b'.jobs[j].run);
    }
  }

  // ----- The cadence of a run type --------------------------------------------------------------

  /** The days a retailer's configuration asks for between runs of a type, at least one. */
  ghost predicate DaysApart(config: Config, slug: string, runType: string, days: int) {
    exists f ::
      && (slug in config.perRetailer ==> f == config.perRetailer[slug]) && (slug !in config.perRetailer ==> f == config.default_)
      && (runType in f.cadence ==> days >= f.cadence[runType]) && (runType !in f.cadence ==> days >= f.defaultCadence)
      && days >= 1
  }

  /** Every new run of a daily pass is as many days after every earlier run of its scope as the configuration of a retailer asks for. */
  lemma {:induction false} NewRunsApart(b: Book, b': Book, config: Config, retailers: seq<Retailer>, now: int, slugs: map<string, nat>, run: nat,
                                        earlier: nat)
    requires DailyPass(b, b', config, retailers, now) && Consistent(b'.runs, b'.jobs, slugs, b'.unforced)
    requires IsNew(b, b', run) && earlier in b'.runs && earlier < run && ScopeOf(b'.runs[earlier]) == ScopeOf(b'.runs[run])
    ensures exists i | 0 <= i < |retailers| ::
      && retailers[i].id == b'.runs[run].retailer && !retailers[i].blocked
      && DaysApart(config, retailers[i].slug, b'.runs[run].runType, Day(now) - Day(b'.runs[earlier].scheduledAt))
  {
    assert InPass(ScopeOf(b'.runs[run]), config, retailers, b'.unforced[run]);
    var i :| 0 <= i < |retailers| && !retailers[i].blocked && InRetailer(ScopeOf(b'.runs[run]), config, retailers[i], b'.unforced[run]);
    var f := FrequencyFor(config, retailers[i].slug);
    assert b'.runs[run].scheduledAt == now;
    assert Day(now) - Day(b'.runs[earlier].scheduledAt) >= Spacing(CadenceFor(f, b'.runs[run].runType));
    assert (retailers[i].slug in config.perRetailer ==> f == config.perRetailer[retailers[i].slug]);
  }
}
