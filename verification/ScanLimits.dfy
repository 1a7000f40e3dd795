// Two statements one might expect of every run, and exactly when a run keeps them: a pending job has no pause
// request, and no more large jobs scan than the large cap allows.
module ScanLimits {
  import opened Options
  import opened ScanModel
  import opened Promotion
  import opened ScanRuns
  import opened ScanSafety
  import opened ScanTheorems

  // ---------- pending with a pause request ----------

  predicate Stuck(rec: Record) { rec.job.state == ScanPending && RunOf(rec).pauseRequested }

  // An attempt fails, but not for the last time, for a worker in charge of a scan that was asked to pause.
  predicate FailsDespitePause(cfg: Config, x: World, e: Event, id: JobId) {
    e.OnWorker? && e.step.FailAttempt? && Live(x, e.w) && x.workers[e.w].job == id && Owns(OfWorker(x, e.w), e.w)
    && OfWorker(x, e.w).run.value.pauseRequested
    && OfWorker(x, e.w).run.value.failureCount + 1 < Max(cfg.settings.maxFailures, 1)
  }

  // A step that cannot make a scanning job large.
  predicate SameScan(rec: Record, after: Record) {
    after.job.state == Scanning ==>
      rec.job.state == Scanning && RunOf(after).totalBytes == RunOf(rec).totalBytes
      && after.job.sizeBytes == rec.job.sizeBytes
  }

  // Asked to pause, and not scanning.
  predicate Held(rec: Record) {
    (rec.job.state == ScanPending || rec.job.state == ScanPaused) && RunOf(rec).pauseRequested
  }

  // Nor leave it pending with a pause request, nor let it go on.
  predicate Harmless(rec: Record, after: Record) {
    SameScan(rec, after) && (Stuck(after) <==> Stuck(rec)) && (Held(rec) ==> Held(after))
  }

  lemma AdvancedHarmless(rec: Record, job: Job)
    requires Advanced(rec.job, job)
    ensures Harmless(rec, rec.(job := job))
  {}

  lemma QueuedHarmless(rec: Record, now: Time)
    requires BeforeScan(rec.job.state)
    ensures Harmless(rec, Queued(rec, now))
  {}

  lemma RetriedHarmless(rec: Record, o: RetryOutcome, now: Time)
    requires RetryOutcomePossible(o)
    ensures Harmless(rec, Retried(rec, o, now))
  {
    hide Retried;
    RetriedRests(rec, o, now);
  }

  lemma EditedHarmless(rec: Record, expected: Path, folder: Path)
    ensures Harmless(rec, Edited(rec, expected, folder))
  {
    hide Editable;
  }

  lemma PauseAskedEndsStuck(rec: Record)
    ensures SameScan(rec, PauseAsked(rec)) && !Stuck(PauseAsked(rec)) && (Held(rec) ==> Held(PauseAsked(rec)))
  {}

  lemma ResumedFrees(rec: Record, now: Time)
    ensures SameScan(rec, Resumed(rec, now)) && (Stuck(Resumed(rec, now)) <==> Stuck(rec))
  {}

  lemma PrioritizedHarmless(rec: Record, now: Time)
    ensures Harmless(rec, Prioritized(rec, now))
  {}

  lemma InfectedActedHarmless(rec: Record, step: InfectedStep)
    ensures Harmless(rec, InfectedActed(rec, step))
  {}

  // Of the requests and service steps, a pause ends such a state and none begins it.
  lemma JobStepHarmless(rec: Record, e: JobEvent)
    requires JobEnabled(rec, e)
    ensures SameScan(rec, JobStep(rec, e)) && (Stuck(JobStep(rec, e)) <==> Stuck(rec) && !e.Pause?)
    ensures Held(rec) && !e.Resume? ==> Held(JobStep(rec, e))
  {
    hide Advanced, Queued, Retried, Edited, PauseAsked, Resumed, Prioritized, InfectedActed, SameScan, Stuck, Held;
    match e {
      case Move(job) => AdvancedHarmless(rec, job);
      case Enqueue(now) => QueuedHarmless(rec, now);
      case Retry(o, now) => RetriedHarmless(rec, o, now);
      case Edit(expected, folder) => EditedHarmless(rec, expected, folder);
      case Pause => PauseAskedEndsStuck(rec);
      case Resume(now) => ResumedFrees(rec, now);
      case Prioritize(now) => PrioritizedHarmless(rec, now);
      case ActOnInfection(step) => InfectedActedHarmless(rec, step);
    }
  }

  // A retry leaves a failed job waiting for its download, or queued afresh.
  lemma RetriedRests(rec: Record, o: RetryOutcome, now: Time)
    requires RetryOutcomePossible(o)
    ensures var after := Retried(rec, o, now);
            if rec.job.state == Failed then !Stuck(after) && after.job.state != Scanning else after == rec
  {
    hide PreparedForRetry;
  }

  lemma OwnerScans(rec: Record, w: WorkerId)
    requires RecordOk(rec) && Owns(rec, w)
    ensures rec.job.state == Scanning
  {
    hide BooksAgree, VerdictAgrees, NoneInProgress;
  }

  lemma WorkerStepStuck(rec: Record, w: WorkerId, e: WorkerEvent, cfg: Settings)
    requires Owns(rec, w) ==> rec.job.state == Scanning
    ensures Stuck(WorkerStep(rec, w, e, cfg))
       <==> Stuck(rec) || (e.FailAttempt? && Owns(rec, w) && rec.run.value.pauseRequested
                           && rec.run.value.failureCount + 1 < Max(cfg.maxFailures, 1))
  {
    hide Release, Backoff;
  }

  lemma RecoveredStuck(rec: Record, now: Time, force: bool)
    ensures Stuck(Recovered(rec, now, force)) <==> Stuck(rec)
  {
    hide Release;
  }

  lemma ScanStepStuck(rec: Record, w: WorkerId)
    requires Owns(rec, w) ==> rec.job.state == Scanning
    ensures forall root, manifest, identity :: Stuck(Prepared(rec, w, root, manifest, identity)) <==> Stuck(rec)
    ensures forall i, stamp, identity, now, cfg :: Stuck(Started(rec, w, i, stamp, identity, now, cfg)) <==> Stuck(rec)
    ensures forall i, infected, threat, identity ::
              Stuck(Scanned(rec, w, i, infected, threat, identity)) <==> Stuck(rec)
    ensures Stuck(FinishedClean(rec, w)) <==> Stuck(rec)
  {}

  lemma {:induction false} ClaimLoopSkips(x: World, order: seq<JobId>, available: int, large: int, now: Time,
                                          cfg: Settings, id: JobId)
    requires Claimable(x.records, order) && id in x.records && id !in order
    ensures var y := ClaimLoop(x, order, available, large, now, cfg).0;
            id in y.records && y.records[id] == x.records[id]
    decreases |order|
  {
    hide IsLarge, Claimed;
    if order != [] && available > 0 {
      var first, rest := order[0], order[1..];
      assert first in order && first !in rest;
      if IsLarge(x.records[first], cfg) && large >= cfg.MaxLarge() {
        ClaimLoopSkips(x, rest, available, large, now, cfg, id);
      } else {
        var y := ClaimOne(x, first, now, cfg);
        assert Claimable(y.records, rest) by { StillClaimable(x, first, rest, now, cfg); }
        ClaimLoopSkips(y, rest, available - 1, if IsLarge(x.records[first], cfg) then large + 1 else large, now,
            cfg, id);
      }
    }
  }

  lemma StillClaimable(x: World, first: JobId, rest: seq<JobId>, now: Time, cfg: Settings)
    requires Claimable(x.records, [first] + rest)
    ensures Claimable(ClaimOne(x, first, now, cfg).records, rest)
  {
    hide Claimed;
    assert first in [first] + rest && forall id <- rest :: id in [first] + rest;
    forall i, j | 0 <= i < j < |rest|
      ensures rest[i] != rest[j]
    {
      assert ([first] + rest)[i + 1] != ([first] + rest)[j + 1];
    }
    forall id <- rest
      ensures id != first
    {
      var i :| 0 <= i < |rest| && rest[i] == id;
      assert ([first] + rest)[0] != ([first] + rest)[i + 1];
    }
  }

  // A cycle claims only candidates, and a job that is asked to pause is none.
  lemma ScheduleStuck(x: World, order: seq<JobId>, now: Time, maintenance: bool, canScan: bool, cfg: Settings,
                      id: JobId)
    requires CandidateOrder(RecoverAll(x.records, now, false), order, now) && id in x.records
    ensures var y := SchedulerCycle(x, order, now, maintenance, canScan, cfg).0;
            id in y.records && (Stuck(y.records[id]) <==> Stuck(x.records[id]))
  {
    hide Active, ActiveLarge, RelaxedControl, ClampedControl, Recovered, ClaimLoop;
    RecoveredStuck(x.records[id], now, false);
    ScheduleTouches(x, order, now, maintenance, canScan, cfg, id);
    var recovered := RecoverAll(x.records, now, false);
    if Stuck(x.records[id]) && !maintenance && canScan {
      var x1 := x.(records := recovered, control := ClampedControl(x.control, cfg));
      var x2 := x1.(control := RelaxedControl(x1.control, x1.records, cfg));
      var available := Max(x2.control.slots - |Active(x2.records, now)|, 0);
      CandidatesAreClaimable(recovered, order, now);
      assert id !in order;
      ClaimLoopSkips(x2, order, available, |ActiveLarge(x2.records, now, cfg)|, now, cfg, id);
    }
  }

  // What decides, in one step, whether a job is pending with a pause request afterwards.
  lemma StuckAfterStep(cfg: Config, x: World, e: Event, id: JobId)
    requires Inv(cfg, x) && Enabled(cfg, x, e) && id in x.records && id in Apply(cfg, x, e).records
    ensures Stuck(Apply(cfg, x, e).records[id])
       <==> (Stuck(x.records[id]) && e != OnJob(id, Pause)) || FailsDespitePause(cfg, x, e, id)
  {
    hide RecordOk, Backed, OwnerAgrees, FolderAgrees, JobStep, WorkerStep, Recovered, Prepared, Started, Scanned,
         FinishedClean, SchedulerCycle, CanPrepare, CanStart, Reconcile, Apply, CandidateOrder, JobEnabled, Stuck;
    AppliedTo(cfg, x, e, id);
    assert RecordInv(cfg, x, id);
    var rec := x.records[id];
    match e {
      case Submit(j, job) => assert j != id;
      case OnJob(j, event) => if j == id { JobStepHarmless(rec, event); }
      case OnWorker(w, step) =>
        if x.workers[w].job == id {
          if Owns(rec, w) { OwnerScans(rec, w); }
          WorkerStepStuck(rec, w, step, cfg.settings);
        }
      case Recover(now, force) => RecoveredStuck(rec, now, force);
      case Schedule(now, order, maintenance, canScan) =>
        ScheduleStuck(x, order, now, maintenance, canScan, cfg.settings, id);
      case Prepare(w, _, _, _, _) => OwnerStepStuck(rec, w);
      case Start(w, _, _, _, _) => OwnerStepStuck(rec, w);
      case Answer(w, _, _) => OwnerStepStuck(rec, w);
      case FinishClean(w) => OwnerStepStuck(rec, w);
      case Promote(j, t, hook) => if j == id { ReconcileStuck(rec, cfg.canon, t, hook); }
      case _ =>
    }
  }

  lemma OwnerStepStuck(rec: Record, w: WorkerId)
    requires RecordOk(rec)
    ensures forall root, manifest, identity :: Stuck(Prepared(rec, w, root, manifest, identity)) <==> Stuck(rec)
    ensures forall i, stamp, identity, now, cfg :: Stuck(Started(rec, w, i, stamp, identity, now, cfg)) <==> Stuck(rec)
    ensures forall i, infected, threat, identity ::
              Stuck(Scanned(rec, w, i, infected, threat, identity)) <==> Stuck(rec)
    ensures Stuck(FinishedClean(rec, w)) <==> Stuck(rec)
  {
    hide RecordOk, Prepared, Started, Scanned, FinishedClean, Stuck;
    if Owns(rec, w) { OwnerScans(rec, w); }
    ScanStepStuck(rec, w);
  }

  lemma ReconcileStuck(rec: Record, canon: Path -> Option<Path>, t: Option<Torrent>, hook: bool)
    requires CleanPass(rec)
    ensures !Stuck(Reconcile(rec, canon, t, hook).0) && !Stuck(rec)
  {}

  ghost predicate NeverStuck(xs: seq<World>) {
    forall k, id :: 0 <= k < |xs| && id in xs[k].records ==> !Stuck(xs[k].records[id])
  }

  // In a run, no pending job ever has a pause request if and only if no attempt fails, short of the last
  // failure, for a worker in charge of a scan that was asked to pause.
  lemma PendingWithoutPauseExactly(cfg: Config, xs: seq<World>, es: seq<Event>)
    requires cfg.Valid() && IsRun(cfg, xs, es)
    ensures NeverStuck(xs)
       <==> forall n, id :: 0 <= n < |es| && id in xs[n].records ==> !FailsDespitePause(cfg, xs[n], es[n], id)
  {
    hide Apply, Enabled, Inv, Stuck, FailsDespitePause;
    forall n, id | 0 <= n < |es| && id in xs[n].records && FailsDespitePause(cfg, xs[n], es[n], id)
      ensures !NeverStuck(xs)
    {
      RunsKeepInv(cfg, xs, es, n);
      FailingKeepsJob(cfg, xs[n], es[n], id);
      StuckAfterStep(cfg, xs[n], es[n], id);
      assert Stuck(xs[n + 1].records[id]);
    }
    if forall n, id :: 0 <= n < |es| && id in xs[n].records ==> !FailsDespitePause(cfg, xs[n], es[n], id) {
      forall k, id | 0 <= k < |xs| && id in xs[k].records
        ensures !Stuck(xs[k].records[id])
      {
        if Stuck(xs[k].records[id]) { var n := StuckByFailing(cfg, xs, es, k, id); }
      }
    }
  }

  lemma FailingKeepsJob(cfg: Config, x: World, e: Event, id: JobId)
    requires Enabled(cfg, x, e) && FailsDespitePause(cfg, x, e, id)
    ensures id in x.records && id in Apply(cfg, x, e).records
  {}

  // The failure that left a job pending with a pause request; the job has been so ever since.
  lemma {:induction false} StuckByFailing(cfg: Config, xs: seq<World>, es: seq<Event>, k: nat, id: JobId)
    returns (n: nat)
    requires cfg.Valid() && IsRun(cfg, xs, es) && k < |xs| && id in xs[k].records && Stuck(xs[k].records[id])
    ensures n < k && id in xs[n].records && FailsDespitePause(cfg, xs[n], es[n], id)
    ensures forall m :: n < m <= k ==> id in xs[m].records && Stuck(xs[m].records[id])
  {
    hide Apply, Enabled, Inv, Stuck, FailsDespitePause;
    assert k > 0;
    RunsKeepInv(cfg, xs, es, k - 1);
    NewJobIsNotStuck(cfg, xs[k - 1], es[k - 1], id);
    StuckAfterStep(cfg, xs[k - 1], es[k - 1], id);
    if FailsDespitePause(cfg, xs[k - 1], es[k - 1], id) {
      n := k - 1;
    } else {
      n := StuckByFailing(cfg, xs, es, k - 1, id);
    }
  }

  lemma NewJobIsNotStuck(cfg: Config, x: World, e: Event, id: JobId)
    requires Enabled(cfg, x, e) && id in Apply(cfg, x, e).records && Stuck(Apply(cfg, x, e).records[id])
    ensures id in x.records
  {
    if e.Schedule? {
      ScheduleTouches(x, e.order, e.now, e.maintenance, e.canScan, cfg.settings, id);
    }
  }

  lemma {:induction false} StuckUntilPaused(cfg: Config, xs: seq<World>, es: seq<Event>, i: nat, k: nat, id: JobId)
    requires cfg.Valid() && IsRun(cfg, xs, es) && i <= k < |xs|
    requires id in xs[i].records && Stuck(xs[i].records[id]) && id in xs[k].records
    requires forall n :: i <= n < k ==> es[n] != OnJob(id, Pause)
    ensures Stuck(xs[k].records[id])
  {
    hide Apply, Enabled, Inv, Stuck, FailsDespitePause;
    if i < k {
      StaysKnown(cfg, xs, es, i, k - 1, id);
      StuckUntilPaused(cfg, xs, es, i, k - 1, id);
      RunsKeepInv(cfg, xs, es, k - 1);
      StuckAfterStep(cfg, xs[k - 1], es[k - 1], id);
    }
  }

  // A job known before and after was known in between, because identifiers are not used twice.
  lemma StaysKnown(cfg: Config, xs: seq<World>, es: seq<Event>, i: nat, k: nat, id: JobId)
    requires cfg.Valid() && IsRun(cfg, xs, es) && i <= k < |es|
    requires id in xs[i].records && id in xs[k + 1].records
    ensures id in xs[k].records
  {
    hide Apply, Enabled, RecordInv;
    RunsKeepInv(cfg, xs, es, i);
    RunsKeepInv(cfg, xs, es, k);
    UsedGrows(cfg, xs, es, i, k);
    KnownBefore(cfg, xs[k], es[k], id);
  }

  lemma HeldHasNoWorker(rec: Record)
    requires RecordOk(rec) && Held(rec)
    ensures RunOf(rec).worker.None? && !CleanPass(rec)
  {
    hide BooksAgree, VerdictAgrees, NoneInProgress;
  }

  lemma RecoveredHeld(rec: Record, now: Time, force: bool)
    requires Held(rec)
    ensures Held(Recovered(rec, now, force)) && !Candidate(Recovered(rec, now, force), now)
  {}

  lemma ScheduleHeld(x: World, order: seq<JobId>, now: Time, maintenance: bool, canScan: bool, cfg: Settings, id: JobId)
    requires CandidateOrder(RecoverAll(x.records, now, false), order, now) && id in x.records && Held(x.records[id])
    ensures var y := SchedulerCycle(x, order, now, maintenance, canScan, cfg).0; id in y.records && Held(y.records[id])
  {
    hide Active, ActiveLarge, RelaxedControl, ClampedControl, Recovered, ClaimLoop, Held, Candidate;
    RecoveredHeld(x.records[id], now, false);
    ScheduleTouches(x, order, now, maintenance, canScan, cfg, id);
    var recovered := RecoverAll(x.records, now, false);
    if !maintenance && canScan {
      var x1 := x.(records := recovered, control := ClampedControl(x.control, cfg));
      var x2 := x1.(control := RelaxedControl(x1.control, x1.records, cfg));
      var available := Max(x2.control.slots - |Active(x2.records, now)|, 0);
      CandidatesAreClaimable(recovered, order, now);
      assert id !in order;
      ClaimLoopSkips(x2, order, available, |ActiveLarge(x2.records, now, cfg)|, now, cfg, id);
    }
  }

  // Only a resumption lets a job go on that was asked to pause.
  lemma HeldAfterStep(cfg: Config, x: World, e: Event, id: JobId)
    requires Inv(cfg, x) && Enabled(cfg, x, e) && id in x.records && id in Apply(cfg, x, e).records
    requires Held(x.records[id]) && !(e.OnJob? && e.id == id && e.event.Resume?)
    ensures Held(Apply(cfg, x, e).records[id])
  {
    hide RecordOk, Backed, OwnerAgrees, FolderAgrees, JobStep, WorkerStep, Recovered, Prepared, Started, Scanned,
         FinishedClean, SchedulerCycle, CanPrepare, CanStart, Reconcile, Apply, CandidateOrder, JobEnabled, Held;
    AppliedTo(cfg, x, e, id);
    assert RecordInv(cfg, x, id);
    var rec := x.records[id];
    HeldHasNoWorker(rec);
    match e {
      case OnJob(j, event) => if j == id { JobStepHarmless(rec, event); }
      case Recover(now, force) => RecoveredHeld(rec, now, force);
      case Schedule(now, order, maintenance, canScan) =>
        ScheduleHeld(x, order, now, maintenance, canScan, cfg.settings, id);
      case OnWorker(w, step) => if x.workers[w].job == id { WithoutLeaseNothingIsRecorded(cfg, x, e, w); }
      case Prepare(w, _, _, _, _) => if x.workers[w].job == id { WithoutLeaseNothingIsRecorded(cfg, x, e, w); }
      case Start(w, _, _, _, _) => if x.workers[w].job == id { WithoutLeaseNothingIsRecorded(cfg, x, e, w); }
      case Answer(w, _, _) => if x.workers[w].job == id { WithoutLeaseNothingIsRecorded(cfg, x, e, w); }
      case FinishClean(w) => if x.workers[w].job == id { WithoutLeaseNothingIsRecorded(cfg, x, e, w); }
      case _ =>
    }
  }

  predicate IsResume(e: Event, id: JobId) { e.OnJob? && e.id == id && e.event.Resume? }

  lemma {:induction false} HeldUntilResumed(cfg: Config, xs: seq<World>, es: seq<Event>, i: nat, k: nat, id: JobId)
    requires cfg.Valid() && IsRun(cfg, xs, es) && i <= k < |xs|
    requires id in xs[i].records && Held(xs[i].records[id]) && id in xs[k].records
    requires forall n :: i <= n < k ==> !IsResume(es[n], id)
    ensures Held(xs[k].records[id])
  {
    hide Apply, Enabled, Inv, Held;
    if i < k {
      StaysKnown(cfg, xs, es, i, k - 1, id);
      HeldUntilResumed(cfg, xs, es, i, k - 1, id);
      RunsKeepInv(cfg, xs, es, k - 1);
      HeldAfterStep(cfg, xs[k - 1], es[k - 1], id);
    }
  }

  lemma FirstPause(es: seq<Event>, i: nat, k: nat, id: JobId) returns (p: nat)
    requires i <= k <= |es|
    ensures i <= p <= k && (p < k ==> es[p] == OnJob(id, Pause)) && forall n :: i <= n < p ==> es[n] != OnJob(id, Pause)
  {
    p := i;
    while p < k && es[p] != OnJob(id, Pause)
      invariant i <= p <= k && forall n :: i <= n < p ==> es[n] != OnJob(id, Pause)
    {
      p := p + 1;
    }
  }

  // What such a state costs: the job is not claimed again before it is paused once more and then resumed.
  lemma CandidateAfterPauseAndResume(cfg: Config, xs: seq<World>, es: seq<Event>, i: nat, k: nat, id: JobId, now: Time)
    returns (p: nat, r: nat)
    requires cfg.Valid() && IsRun(cfg, xs, es) && i <= k < |xs|
    requires id in xs[i].records && Stuck(xs[i].records[id])
    requires id in xs[k].records && Candidate(xs[k].records[id], now)
    ensures i <= p < r < k && es[p] == OnJob(id, Pause) && IsResume(es[r], id)
  {
    hide Apply, Enabled, Inv, IsRun;
    RunShape(cfg, xs, es);
    p := FirstPause(es, i, k, id);
    KnownBetween(cfg, xs, es, i, k, p, id);
    StuckUntilPaused(cfg, xs, es, i, p, id);
    assert p < k;
    if forall n :: p <= n < k ==> !IsResume(es[n], id) {
      HeldUntilResumed(cfg, xs, es, p, k, id);
      assert false;
    }
    r :| p <= r < k && IsResume(es[r], id);
  }

  lemma RunShape(cfg: Config, xs: seq<World>, es: seq<Event>)
    requires IsRun(cfg, xs, es)
    ensures |xs| == |es| + 1
  {}

  lemma {:induction false} KnownBetween(cfg: Config, xs: seq<World>, es: seq<Event>, i: nat, k: nat, p: nat, id: JobId)
    requires cfg.Valid() && IsRun(cfg, xs, es) && i <= p <= k < |xs|
    requires id in xs[i].records && id in xs[k].records
    ensures id in xs[p].records
  {
    hide Apply, Enabled, RecordInv;
    if p < k {
      StaysKnown(cfg, xs, es, i, k - 1, id);
      KnownBetween(cfg, xs, es, i, k - 1, p, id);
    }
  }

  // ---------- the large cap ----------

  function LargeScans(x: World, cfg: Settings): set<JobId> {
    set id | id in x.records && x.records[id].job.state == Scanning && IsLarge(x.records[id], cfg)
  }

  predicate WithinLargeCap(cfg: Config, x: World) {
    |LargeScans(x, cfg.settings)| <= cfg.settings.MaxLarge()
  }

  function ManifestBytes(manifest: seq<ManifestEntry>): nat {
    if manifest == [] then 0 else manifest[0].stamp.size + ManifestBytes(manifest[1..])
  }

  // A total of zero bytes leaves the size the job came with.
  predicate ReachesLarge(total: int, job: Job, cfg: Settings) {
    var size := if total != 0 then total else if job.sizeBytes.Some? then job.sizeBytes.value else 0;
    size >= cfg.largeScanBytes
  }

  // The worker in charge of a job that is not large yet finds too many bytes: in the manifest it has read, or in
  // the file it is about to scan, which has grown.
  predicate TurnsLarge(cfg: Config, x: World, e: Event) {
    (e.Prepare? || e.Start?) && Live(x, e.w) && Owns(OfWorker(x, e.w), e.w) && !IsLarge(OfWorker(x, e.w), cfg.settings)
    && var rec := OfWorker(x, e.w);
       if e.Prepare? then ReachesLarge(ManifestBytes(e.manifest), rec.job, cfg.settings)
       else
         e.i < |rec.run.value.files|
         && ReachesLarge(rec.run.value.totalBytes + e.stamp.size - rec.run.value.files[e.i].stamp.size, rec.job,
                         cfg.settings)
  }

  // The step makes a scanning job large.
  predicate EndsLarge(cfg: Config, x: World, e: Event) {
    (e.Prepare? || e.Start?) && Live(x, e.w) && Enabled(cfg, x, e) && Owns(OfWorker(x, e.w), e.w)
    && !IsLarge(OfWorker(x, e.w), cfg.settings) && IsLarge(RecordAfter(cfg, x, e, x.workers[e.w].job), cfg.settings)
  }

  lemma {:induction false} RebuiltBytes(files: seq<FileRow>, manifest: seq<ManifestEntry>, changed: bool)
    ensures TotalBytes(Rebuild(files, manifest, changed)) == ManifestBytes(manifest)
  {
    if manifest != [] {
      var r := Rebuild(files, manifest, changed);
      assert r[0] == Reconciled(Lookup(files, manifest[0].path), manifest[0], changed);
      assert r[1..] == Rebuild(files, manifest[1..], changed);
      RebuiltBytes(files, manifest[1..], changed);
    }
  }

  lemma PreparedBytes(rec: Record, w: WorkerId, root: Path, manifest: seq<ManifestEntry>, identity: Identity)
    requires Owns(rec, w)
    ensures RunOf(Prepared(rec, w, root, manifest, identity)).totalBytes == ManifestBytes(manifest)
    ensures Prepared(rec, w, root, manifest, identity).job == rec.job
  {
    var run := rec.run.value;
    RebuiltBytes(if run.rootPath == Some(root) then run.files else [], manifest, IdentityDiffers(run, identity));
  }

  // What is known before the step decides.
  lemma SizesDecide(cfg: Config, x: World, e: Event)
    requires Enabled(cfg, x, e)
    ensures TurnsLarge(cfg, x, e) <==> EndsLarge(cfg, x, e)
  {
    hide Rebuild, ManifestBytes, TotalBytes;
    if e.Prepare? && Owns(OfWorker(x, e.w), e.w) {
      PreparedBytes(OfWorker(x, e.w), e.w, e.root, e.manifest, e.identity);
      hide Prepared;
    }
  }

  lemma WorkerStepSameScan(rec: Record, w: WorkerId, e: WorkerEvent, cfg: Settings)
    ensures SameScan(rec, WorkerStep(rec, w, e, cfg))
  {
    hide Release, Backoff;
  }

  lemma RecoveredSameScan(rec: Record, now: Time, force: bool)
    ensures SameScan(rec, Recovered(rec, now, force))
  {
    hide Release;
  }

  lemma EndingsSameScan(rec: Record, w: WorkerId, i: nat, infected: bool, threat: string, identity: Identity)
    ensures SameScan(rec, Scanned(rec, w, i, infected, threat, identity)) && SameScan(rec, FinishedClean(rec, w))
  {}

  lemma NoNewLargeScan(cfg: Config, x: World, e: Event, id: JobId)
    requires Inv(cfg, x) && Enabled(cfg, x, e) && !e.Schedule? && id in LargeScans(Apply(cfg, x, e), cfg.settings)
    ensures id in LargeScans(x, cfg.settings) || (TurnsLarge(cfg, x, e) && x.workers[e.w].job == id)
  {
    hide RecordOk, Backed, OwnerAgrees, FolderAgrees, JobStep, WorkerStep, Recovered, Prepared, Started, Scanned,
         FinishedClean, SchedulerCycle, CanPrepare, CanStart, Reconcile, Apply, CandidateOrder, JobEnabled;
    SizesDecide(cfg, x, e);
    hide TurnsLarge;
    ScanningWasKnown(cfg, x, e, id);
    AppliedTo(cfg, x, e, id);
    assert RecordInv(cfg, x, id);
    var rec := x.records[id];
    match e {
      case OnJob(j, event) => if j == id { JobStepHarmless(rec, event); }
      case OnWorker(w, step) => if x.workers[w].job == id { WorkerStepSameScan(rec, w, step, cfg.settings); }
      case Prepare(w, root, manifest, identity, last) =>
        if x.workers[w].job == id {
          PreparedKeepsJob(rec, w, root, manifest, identity);
          NotOwnerNothing(rec, w);
        }
      case Start(w, i, stamp, identity, now) =>
        if x.workers[w].job == id {
          StartedKeepsJob(rec, w, i, stamp, identity, now, cfg.settings);
          NotOwnerNothing(rec, w);
        }
      case Answer(w, infected, threat) =>
        EndingsSameScan(rec, w, x.workers[w].phase.index, infected, threat, x.workers[w].phase.identity);
      case FinishClean(w) => EndingsSameScan(rec, w, 0, false, "", Identity("", ""));
      case Recover(now, force) => RecoveredSameScan(rec, now, force);
      case Promote(j, t, hook) => if j == id { PromotedIsNoScan(rec, cfg.canon, t, hook); }
      case _ =>
    }
  }

  lemma PromotedIsNoScan(rec: Record, canon: Path -> Option<Path>, t: Option<Torrent>, hook: bool)
    requires CleanPass(rec)
    ensures Reconcile(rec, canon, t, hook).0.job.state != Scanning
  {}

  lemma NotOwnerNothing(rec: Record, w: WorkerId)
    ensures !Owns(rec, w) ==>
              (forall root, manifest, identity :: Prepared(rec, w, root, manifest, identity) == rec)
              && forall i, stamp, identity, now, cfg :: Started(rec, w, i, stamp, identity, now, cfg) == rec
  {}

  lemma ScanningWasKnown(cfg: Config, x: World, e: Event, id: JobId)
    requires Enabled(cfg, x, e) && !e.Schedule? && id in LargeScans(Apply(cfg, x, e), cfg.settings)
    ensures id in x.records
  {}

  lemma {:induction false} ClaimLoopLarge(x: World, order: seq<JobId>, available: int, large: int, now: Time,
                                          cfg: Settings)
    requires Claimable(x.records, order)
    ensures var (y, claims) := ClaimLoop(x, order, available, large, now, cfg);
            |LargeScans(y, cfg)| <= |LargeScans(x, cfg)| + CountLarge(claims)
    decreases |order|
  {
    hide IsLarge, Claimed, LargeScans;
    if order != [] && available > 0 {
      var first, rest := order[0], order[1..];
      assert first in order && first !in rest && order == [first] + rest;
      if IsLarge(x.records[first], cfg) && large >= cfg.MaxLarge() {
        ClaimLoopLarge(x, rest, available, large, now, cfg);
      } else {
        var y := ClaimOne(x, first, now, cfg);
        StillClaimable(x, first, rest, now, cfg);
        ClaimOneLarge(x, first, now, cfg);
        var large' := if IsLarge(x.records[first], cfg) then large + 1 else large;
        ClaimLoopLarge(y, rest, available - 1, large', now, cfg);
        var claims := ClaimLoop(y, rest, available - 1, large', now, cfg).1;
        assert ([Claim(first, x.nextWorker, IsLarge(x.records[first], cfg))] + claims)[1..] == claims;
      }
    }
  }

  lemma ClaimOneLarge(x: World, id: JobId, now: Time, cfg: Settings)
    requires id in x.records && x.records[id].run.Some?
    ensures |LargeScans(ClaimOne(x, id, now, cfg), cfg)|
         <= |LargeScans(x, cfg)| + if IsLarge(x.records[id], cfg) then 1 else 0
  {
    var y := ClaimOne(x, id, now, cfg);
    var allowed := if IsLarge(x.records[id], cfg) then LargeScans(x, cfg) + {id} else LargeScans(x, cfg);
    forall other <- LargeScans(y, cfg)
      ensures other in allowed
    {
      if other == id { SameSize(x.records[id], x.nextWorker, now, cfg); }
    }
    SubsetSize(LargeScans(y, cfg), allowed);
  }

  lemma SameSize(rec: Record, w: WorkerId, now: Time, cfg: Settings)
    requires rec.run.Some?
    ensures IsLarge(Claimed(rec, w, now, cfg), cfg) == IsLarge(rec, cfg)
  {}

  lemma RecoveredLarge(cfg: Config, x: World, now: Time)
    requires Inv(cfg, x)
    ensures var y := x.(records := RecoverAll(x.records, now, false));
            LargeScans(y, cfg.settings) <= LargeScans(x, cfg.settings)
            && ActiveLarge(y.records, now, cfg.settings) == LargeScans(y, cfg.settings)
  {
    hide Recovered, RecordOk, IsLarge, Active;
    RecoveredAreActive(cfg, x, now);
    var y := x.(records := RecoverAll(x.records, now, false));
    forall id <- LargeScans(y, cfg.settings)
      ensures id in LargeScans(x, cfg.settings)
    {
      RecoveredSize(x.records[id], now, cfg.settings);
    }
  }

  lemma RecoveredSize(rec: Record, now: Time, cfg: Settings)
    ensures var after := Recovered(rec, now, false);
            after.job.state == Scanning ==> rec.job.state == Scanning && IsLarge(after, cfg) == IsLarge(rec, cfg)
  {
    hide Release;
  }

  // A cycle never exceeds the cap: it claims no large job beyond it.
  lemma ScheduleWithinCap(cfg: Config, x: World, now: Time, order: seq<JobId>, maintenance: bool, canScan: bool)
    requires Inv(cfg, x) && CandidateOrder(RecoverAll(x.records, now, false), order, now) && WithinLargeCap(cfg, x)
    ensures |LargeScans(SchedulerCycle(x, order, now, maintenance, canScan, cfg.settings).0, cfg.settings)|
         <= cfg.settings.MaxLarge()
  {
    hide Inv, RecoverAll, ClaimLoop, Active, ActiveLarge, InState, CandidateOrder, RelaxedControl, ClampedControl,
         IsLarge;
    var settings := cfg.settings;
    RecoveredLarge(cfg, x, now);
    var x0 := x.(records := RecoverAll(x.records, now, false));
    SubsetSize(LargeScans(x0, settings), LargeScans(x, settings));
    if !maintenance && canScan {
      var x1 := x0.(control := ClampedControl(x.control, settings));
      var x2 := x1.(control := RelaxedControl(x1.control, x1.records, settings));
      assert LargeScans(x2, settings) == LargeScans(x0, settings);
      var available := Max(x2.control.slots - |Active(x2.records, now)|, 0);
      if available != 0 {
        var large := |ActiveLarge(x2.records, now, settings)|;
        CandidatesAreClaimable(x2.records, order, now);
        CandidatesHaveRuns(x2.records, order, now);
        ClaimLoopLarge(x2, order, available, large, now, settings);
        ClaimsAreCapped(x2, order, available, large, now, settings);
        var x3 := ClaimLoop(x2, order, available, large, now, settings).0;
        assert LargeScans(x3.(control := RelaxedControl(x3.control, x3.records, settings)), settings)
            == LargeScans(x3, settings);
      }
    }
  }

  // A step exceeds the cap exactly when it turns a job large while as many large jobs scan as may.
  lemma ExceedsCapExactly(cfg: Config, x: World, e: Event)
    requires Inv(cfg, x) && Enabled(cfg, x, e) && WithinLargeCap(cfg, x)
    ensures !WithinLargeCap(cfg, Apply(cfg, x, e))
       <==> TurnsLarge(cfg, x, e) && |LargeScans(x, cfg.settings)| == cfg.settings.MaxLarge()
  {
    hide Inv, Apply, Enabled, IsLarge, SchedulerCycle, CandidateOrder;
    if e.Schedule? {
      ScheduleIsCycle(cfg, x, e);
      ScheduleWithinCap(cfg, x, e.now, e.order, e.maintenance, e.canScan);
    } else {
      var before, after := LargeScans(x, cfg.settings), LargeScans(Apply(cfg, x, e), cfg.settings);
      forall id <- after
        ensures id in before || (TurnsLarge(cfg, x, e) && x.workers[e.w].job == id)
      {
        NoNewLargeScan(cfg, x, e, id);
      }
      if TurnsLarge(cfg, x, e) {
        OneMoreLarge(cfg, x, e);
      } else {
        SubsetSize(after, before);
      }
    }
  }

  lemma ScheduleIsCycle(cfg: Config, x: World, e: Event)
    requires Enabled(cfg, x, e) && e.Schedule?
    ensures CandidateOrder(RecoverAll(x.records, e.now, false), e.order, e.now)
    ensures Apply(cfg, x, e) == SchedulerCycle(x, e.order, e.now, e.maintenance, e.canScan, cfg.settings).0
  {
    hide SchedulerCycle, CandidateOrder;
  }

  lemma OneMoreLarge(cfg: Config, x: World, e: Event)
    requires Inv(cfg, x) && Enabled(cfg, x, e) && TurnsLarge(cfg, x, e)
    ensures |LargeScans(Apply(cfg, x, e), cfg.settings)| == |LargeScans(x, cfg.settings)| + 1
  {
    hide Inv, Enabled, Apply, IsLarge, RecordAfter;
    var id := x.workers[e.w].job;
    SizesDecide(cfg, x, e);
    TurnsWhileScanning(cfg, x, e);
    GrownRecord(cfg, x, e);
    assert LargeScans(Apply(cfg, x, e), cfg.settings) == LargeScans(x, cfg.settings) + {id};
  }

  lemma TurnsWhileScanning(cfg: Config, x: World, e: Event)
    requires Inv(cfg, x) && EndsLarge(cfg, x, e)
    ensures OfWorker(x, e.w).job.state == Scanning
  {
    hide RecordOk, Backed, OwnerAgrees, FolderAgrees, Enabled, IsLarge, RecordAfter;
    assert RecordInv(cfg, x, x.workers[e.w].job);
    OwnerScans(OfWorker(x, e.w), e.w);
  }

  lemma GrownRecord(cfg: Config, x: World, e: Event)
    requires Enabled(cfg, x, e) && EndsLarge(cfg, x, e)
    ensures var id := x.workers[e.w].job;
            var y := Apply(cfg, x, e);
            y.records == x.records[id := RecordAfter(cfg, x, e, id)]
            && RecordAfter(cfg, x, e, id).job == x.records[id].job
  {
    hide IsLarge, CanPrepare, CanStart, Rebuild, StartedRow;
  }

  // In a run, the large cap holds in every state if and only if no worker finds its job large while as many
  // large jobs scan as may.
  lemma LargeCapExactly(cfg: Config, xs: seq<World>, es: seq<Event>)
    requires cfg.Valid() && IsRun(cfg, xs, es)
    ensures (forall k :: 0 <= k < |xs| ==> WithinLargeCap(cfg, xs[k]))
       <==> forall n :: 0 <= n < |es| ==>
              !(TurnsLarge(cfg, xs[n], es[n]) && |LargeScans(xs[n], cfg.settings)| == cfg.settings.MaxLarge())
  {
    hide Apply, Enabled, Inv, TurnsLarge, LargeScans;
    if forall k :: 0 <= k < |xs| ==> WithinLargeCap(cfg, xs[k]) {
      forall n | 0 <= n < |es|
        ensures !(TurnsLarge(cfg, xs[n], es[n]) && |LargeScans(xs[n], cfg.settings)| == cfg.settings.MaxLarge())
      {
        RunsKeepInv(cfg, xs, es, n);
        assert WithinLargeCap(cfg, xs[n]) && WithinLargeCap(cfg, xs[n + 1]);
        ExceedsCapExactly(cfg, xs[n], es[n]);
      }
    }
    if forall n :: 0 <= n < |es| ==>
         !(TurnsLarge(cfg, xs[n], es[n]) && |LargeScans(xs[n], cfg.settings)| == cfg.settings.MaxLarge()) {
      forall k | 0 <= k < |xs|
        ensures WithinLargeCap(cfg, xs[k])
      {
        StaysWithinCap(cfg, xs, es, k);
      }
    }
  }

  lemma {:induction false} StaysWithinCap(cfg: Config, xs: seq<World>, es: seq<Event>, k: nat)
    requires cfg.Valid() && IsRun(cfg, xs, es) && k < |xs|
    requires forall n :: 0 <= n < |es| ==>
               !(TurnsLarge(cfg, xs[n], es[n]) && |LargeScans(xs[n], cfg.settings)| == cfg.settings.MaxLarge())
    ensures WithinLargeCap(cfg, xs[k])
  {
    hide Apply, Enabled, Inv, TurnsLarge;
    if k == 0 {
      assert LargeScans(xs[0], cfg.settings) == {};
    } else {
      StaysWithinCap(cfg, xs, es, k - 1);
      RunsKeepInv(cfg, xs, es, k - 1);
      ExceedsCapExactly(cfg, xs[k - 1], es[k - 1]);
    }
  }
}
