// What every step of the controller keeps, and what follows for whole runs.
module ScanSafety {
  import opened Options
  import opened ScanModel
  import opened Promotion
  import opened ScanRuns

  // ---------- counters ----------

  lemma {:induction false} CountersAfterUpdate(files: seq<FileRow>, i: nat, row: FileRow)
    requires i < |files|
    ensures TotalBytes(files[i := row]) == TotalBytes(files) - files[i].stamp.size + row.stamp.size
    ensures CompletedFiles(files[i := row])
         == CompletedFiles(files) - (if Completed(files[i]) then 1 else 0) + (if Completed(row) then 1 else 0)
    ensures CompletedBytes(files[i := row])
         == CompletedBytes(files) - (if Completed(files[i]) then files[i].stamp.size else 0)
            + (if Completed(row) then row.stamp.size else 0)
  {
    if i == 0 {
      assert files[i := row][1..] == files[1..];
    } else {
      assert files[i := row][1..] == files[1..][i - 1 := row];
      CountersAfterUpdate(files[1..], i - 1, row);
    }
  }

  // Releasing rows that a worker had in progress moves no counter.
  lemma {:induction false} CountersAfterRelease(files: seq<FileRow>, status: FileStatus)
    requires status == Pending || status == Refused
    ensures TotalBytes(Release(files, status)) == TotalBytes(files)
    ensures CompletedFiles(Release(files, status)) == CompletedFiles(files)
    ensures CompletedBytes(Release(files, status)) == CompletedBytes(files)
  {
    if files != [] {
      assert Release(files, status)[1..] == Release(files[1..], status);
      CountersAfterRelease(files[1..], status);
    }
  }

  lemma {:induction false} NoInfectedRowsToCount(files: seq<FileRow>)
    requires forall row <- files :: row.status != Infected
    ensures CleanFiles(files) == CompletedFiles(files) && CleanBytes(files) == CompletedBytes(files)
  {
    if files != [] {
      NoInfectedRowsToCount(files[1..]);
    }
  }

  // ---------- the rebuilt manifest ----------

  // The rows after a rebuild are the manifest; a row is still clean only if a clean row with the
  // same path and fingerprint was there before and the engine and policy did not change.
  lemma RebuiltRows(files: seq<FileRow>, manifest: seq<ManifestEntry>, changed: bool)
    requires DistinctEntries(manifest)
    ensures RowsMatch(Rebuild(files, manifest, changed), manifest)
    ensures DistinctPaths(Rebuild(files, manifest, changed))
    ensures forall row <- Rebuild(files, manifest, changed) ::
              row.status == Pending || (row.status == Clean && row in files && !changed)
  {
    var r := Rebuild(files, manifest, changed);
    forall i | 0 <= i < |r|
      ensures r[i].path == manifest[i].path && r[i].stamp == manifest[i].stamp
      ensures r[i].status == Pending || (r[i].status == Clean && r[i] in files && !changed)
    {
      assert r[i] == Reconciled(Lookup(files, manifest[i].path), manifest[i], changed);
    }
  }

  // ---------- every step keeps a record consistent ----------

  // A step that scans nothing: rows are kept or handed back, a hold is kept or given up, and the
  // job neither enters nor leaves the clean side.
  predicate Steady(rec: Record, after: Record) {
    var run, run' := RunOf(rec), RunOf(after);
    (run'.files == run.files || run'.files == Release(run.files, Pending) || run'.files == Release(run.files, Refused))
    && run'.rootPath == run.rootPath && run'.identity == run.identity
    && (run'.worker.None?
        || (run'.worker == run.worker && run'.files == run.files && run'.currentFile == run.currentFile))
    && CleanSide(after.job.state) == CleanSide(rec.job.state)
    && (CleanSide(rec.job.state) ==> after.job.finalParent == rec.job.finalParent)
    && (after.job.state == Scanning ==> rec.job.state == Scanning)
  }

  lemma QueuedOk(rec: Record, now: Time)
    requires RecordOk(rec) && BeforeScan(rec.job.state)
    ensures RecordOk(Queued(rec, now))
    ensures Steady(rec, Queued(rec, now))
  {
    hide CountersAgree, RowsAgree, NoneInProgress;
  }

  // Handing rows back leaves none in progress and the run's books in order.
  lemma ReleasedRun(run: Run, status: FileStatus)
    requires status == Pending || status == Refused
    requires BooksAgree(run)
    ensures var f := Release(run.files, status);
            NoneInProgress(f) && RowsAgree(f, run.rootPath, run.identity)
            && CountersAgree(f, run.totalFiles, run.completedFiles, run.totalBytes, run.completedBytes)
  {
    CountersAfterRelease(run.files, status);
  }

  lemma RestedOk(job: Job, run: Run, now: Time)
    requires RecordOk(Record(job, Some(run))) && job.state == Scanning
    ensures RecordOk(Rested(job, run, now))
    ensures Steady(Record(job, Some(run)), Rested(job, run, now))
  {
    hide CountersAgree, RowsAgree, NoneInProgress;
    ReleasedRun(run, Pending);
  }

  lemma RecoveredOk(rec: Record, now: Time, force: bool)
    requires RecordOk(rec)
    ensures RecordOk(Recovered(rec, now, force))
    ensures Steady(rec, Recovered(rec, now, force))
  {
    if rec.job.state == Scanning {
      RestedOk(rec.job, rec.run.value, now);
    }
  }

  lemma PreparedOk(rec: Record, w: WorkerId, root: Path, manifest: seq<ManifestEntry>, identity: Identity)
    requires RecordOk(rec) && DistinctEntries(manifest)
    ensures RecordOk(Prepared(rec, w, root, manifest, identity))
    ensures Owns(rec, w) ==>
              var run := RunOf(Prepared(rec, w, root, manifest, identity));
              RowsMatch(run.files, manifest) && CleanOrPending(run.files) && run.rootPath == Some(root)
  {
    if Owns(rec, w) {
      var run := rec.run.value;
      var kept := if run.rootPath == Some(root) then run.files else [];
      RebuiltRows(kept, manifest, IdentityDiffers(run, identity));
      NoInfectedRowsToCount(Rebuild(kept, manifest, IdentityDiffers(run, identity)));
    }
  }

  lemma StartedOk(rec: Record, w: WorkerId, i: nat, stamp: Fingerprint, identity: Identity, now: Time, cfg: Settings)
    requires RecordOk(rec) && Owns(rec, w)
    requires rec.run.value.rootPath.Some? && !IdentityDiffers(rec.run.value, identity)
    requires NextFile(rec.run.value.files, i)
    ensures RecordOk(Started(rec, w, i, stamp, identity, now, cfg))
  {
    var files := rec.run.value.files;
    CountersAfterUpdate(files, i, StartedRow(files[i], stamp));
  }

  lemma ScannedOk(rec: Record, w: WorkerId, i: nat, infected: bool, threat: string, identity: Identity)
    requires RecordOk(rec)
    requires Owns(rec, w) ==> OneInProgress(rec.run.value.files, i)
                              && rec.run.value.identity == Some(identity)
    ensures RecordOk(Scanned(rec, w, i, infected, threat, identity))
  {
    if Owns(rec, w) {
      var files := rec.run.value.files;
      CountersAfterUpdate(files, i, ScannedRow(files[i], infected, identity));
    }
  }

  lemma InterruptedOk(rec: Record, w: WorkerId, now: Time)
    requires RecordOk(rec)
    ensures RecordOk(Interrupted(rec, w, now))
    ensures Steady(rec, Interrupted(rec, w, now))
  {
    if Owns(rec, w) {
      RestedOk(rec.job, rec.run.value, now);
    }
  }

  lemma DeferredOk(rec: Record, w: WorkerId, now: Time, after: int)
    requires RecordOk(rec)
    ensures RecordOk(Deferred(rec, w, now, after))
    ensures Steady(rec, Deferred(rec, w, now, after))
  {
    if Owns(rec, w) {
      RestedOk(rec.job.(terminal := false), rec.run.value, now);
    }
  }

  lemma AttemptFailedOk(rec: Record, w: WorkerId, now: Time, cfg: Settings)
    requires RecordOk(rec)
    ensures RecordOk(AttemptFailed(rec, w, now, cfg))
    ensures Steady(rec, AttemptFailed(rec, w, now, cfg))
  {
    hide CountersAgree, RowsAgree, NoneInProgress;
    if Owns(rec, w) {
      ReleasedRun(rec.run.value, Pending);
    }
  }

  lemma PolicyRefusedOk(rec: Record, w: WorkerId)
    requires RecordOk(rec)
    ensures RecordOk(PolicyRefused(rec, w))
    ensures Steady(rec, PolicyRefused(rec, w))
  {
    hide CountersAgree, RowsAgree, NoneInProgress;
    if Owns(rec, w) {
      ReleasedRun(rec.run.value, Refused);
    }
  }

  lemma PausedAtCheckpointOk(rec: Record, w: WorkerId)
    requires RecordOk(rec) && (Owns(rec, w) ==> NoneInProgress(rec.run.value.files))
    ensures RecordOk(PausedAtCheckpoint(rec, w))
    ensures Steady(rec, PausedAtCheckpoint(rec, w))
  {
    hide CountersAgree, RowsAgree, NoneInProgress;
  }

  lemma YieldedOk(rec: Record, w: WorkerId, now: Time)
    requires RecordOk(rec)
    requires Owns(rec, w) ==> NoneInProgress(rec.run.value.files) && rec.run.value.currentFile.None?
    ensures RecordOk(Yielded(rec, w, now))
    ensures Steady(rec, Yielded(rec, w, now))
  {
    hide CountersAgree, RowsAgree, NoneInProgress;
  }

  lemma FinishedCleanOk(rec: Record, w: WorkerId)
    requires RecordOk(rec) && (Owns(rec, w) ==> NoneInProgress(rec.run.value.files))
    ensures RecordOk(FinishedClean(rec, w))
  {
    hide CountersAgree, RowsAgree, NoneInProgress;
  }

  lemma PauseAskedOk(rec: Record)
    requires RecordOk(rec)
    ensures RecordOk(PauseAsked(rec))
    ensures Steady(rec, PauseAsked(rec))
  {
    hide CountersAgree, RowsAgree, NoneInProgress;
  }

  lemma ResumedOk(rec: Record, now: Time)
    requires RecordOk(rec)
    ensures RecordOk(Resumed(rec, now))
    ensures Steady(rec, Resumed(rec, now))
  {
    hide CountersAgree, RowsAgree, NoneInProgress;
  }

  lemma PrioritizedOk(rec: Record, now: Time)
    requires RecordOk(rec)
    ensures RecordOk(Prioritized(rec, now))
    ensures Steady(rec, Prioritized(rec, now))
  {
    hide CountersAgree, RowsAgree, NoneInProgress;
  }

  lemma EditedOk(rec: Record, expected: Path, folder: Path)
    requires RecordOk(rec)
    ensures RecordOk(Edited(rec, expected, folder))
    ensures Steady(rec, Edited(rec, expected, folder))
  {
    hide CountersAgree, RowsAgree, NoneInProgress;
  }

  // From a reachable "error" row a retry never goes back to promotion or to a finished state.
  lemma RetryStaysBeforeScan(rec: Record, o: RetryOutcome, now: Time)
    requires RecordOk(rec) && RetryOutcomePossible(o) && rec.job.state == Failed
    ensures var s := Retried(rec, o, now).job.state; BeforeScan(s) || s == ScanPending || s == Failed
    ensures forall complete :: StateForRetry(PreparedForRetry(rec.job), complete)
                            == if complete then DownloadComplete else Downloading
  {
    hide CountersAgree, RowsAgree, NoneInProgress;
  }

  lemma ReattachedOk(rec: Record, complete: bool, contentPath: Option<Path>, now: Time)
    requires RecordOk(rec) && rec.job.state == Failed
    ensures RecordOk(Reattached(rec, complete, contentPath, now))
    ensures Steady(rec, Reattached(rec, complete, contentPath, now))
  {
    hide CountersAgree, RowsAgree, NoneInProgress;
    assert !PreparedForRetry(rec.job).scanCompleted;
  }

  lemma RetriedOk(rec: Record, o: RetryOutcome, now: Time)
    requires RecordOk(rec) && RetryOutcomePossible(o)
    ensures RecordOk(Retried(rec, o, now))
    ensures Steady(rec, Retried(rec, o, now))
  {
    hide Reattached, CountersAgree, RowsAgree, NoneInProgress;
    if rec.job.state == Failed && o.Attached? {
      ReattachedOk(rec, o.torrentComplete, o.contentPath, now);
    }
  }

  lemma PromotionOk(rec: Record, canon: Path -> Option<Path>, t: Option<Torrent>, hook: bool)
    requires RecordOk(rec) && CleanPass(rec)
    ensures RecordOk(Reconcile(rec, canon, t, hook).0)
  {
    hide CountersAgree, RowsAgree, NoneInProgress;
  }

  lemma InfectedActedOk(rec: Record, step: InfectedStep)
    requires RecordOk(rec)
    ensures RecordOk(InfectedActed(rec, step))
    ensures Steady(rec, InfectedActed(rec, step))
  {
    hide CountersAgree, RowsAgree, NoneInProgress;
  }

  // ---------- lifting a record's step to the world ----------

  // Nothing of the other jobs moves when one record, its worker and the history change.
  predicate OnlyOneChanged(x: World, y: World, id: JobId) {
    id in x.records && y.records.Keys == x.records.Keys
    && (forall other :: other in x.records && other != id ==> y.records[other] == x.records[other])
    && y.workers.Keys == x.workers.Keys
    && (forall w :: w in x.workers ==> y.workers[w].job == x.workers[w].job
                                       && (x.workers[w].job != id ==> y.workers[w] == x.workers[w]))
    && y.nextWorker == x.nextWorker && y.used == x.used && x.log <= y.log
  }

  predicate SameEntry(a: map<JobId, Path>, b: map<JobId, Path>, id: JobId) {
    (id in a <==> id in b) && (id in a && id in b ==> a[id] == b[id])
  }

  lemma OthersKeepInv(cfg: Config, x: World, y: World, id: JobId)
    requires Inv(cfg, x) && OnlyOneChanged(x, y, id)
    requires forall other <- x.records :: other != id ==> SameEntry(x.cleared, y.cleared, other)
    ensures forall other <- y.records :: other != id ==> RecordInv(cfg, y, other)
  {
    forall other | other in y.records && other != id
      ensures RecordInv(cfg, y, other)
    {
      hide RecordOk, PhaseAgrees;
      assert RecordInv(cfg, x, other);
    }
  }

  lemma ScanningShrinks(cfg: Config, x: World, y: World, id: JobId)
    requires SlotsKept(cfg, x) && OnlyOneChanged(x, y, id) && y.control == x.control
    requires y.records[id].job.state == Scanning ==> x.records[id].job.state == Scanning
    ensures SlotsKept(cfg, y)
  {
    SubsetSize(InState(y.records, Scanning), InState(x.records, Scanning));
  }

  lemma OneRecordKeepsInv(cfg: Config, x: World, y: World, id: JobId)
    requires Inv(cfg, x) && OnlyOneChanged(x, y, id) && y.control == x.control
    requires y.cleared == x.cleared && y.sent == x.sent
    requires RecordInv(cfg, y, id)
    requires y.records[id].job.state == Scanning ==> x.records[id].job.state == Scanning
    ensures Inv(cfg, y)
  {
    hide RecordInv;
    OthersKeepInv(cfg, x, y, id);
    ScanningShrinks(cfg, x, y, id);
    assert HistoryInv(cfg, y);
  }

  lemma SubsetSize(a: set<JobId>, b: set<JobId>)
    requires a <= b
    ensures |a| <= |b|
  {
    if a != b {
      var e :| e in b && e !in a;
      SubsetSize(a, b - {e});
    }
  }

  // ---------- every event keeps the invariant ----------

  lemma SteadyBacked(id: JobId, rec: Record, after: Record, log: set<ScanEvent>)
    requires Steady(rec, after) && Backed(id, RunOf(rec), log)
    ensures Backed(id, RunOf(after), log)
  {
    hide NoneInProgress;
    var run, run' := RunOf(rec), RunOf(after);
    if run'.files != run.files {
      forall row <- run'.files | row.status == Clean
        ensures row in run.files
      {
        var i :| 0 <= i < |run'.files| && run'.files[i] == row;
        assert run.files[i] == row;
      }
    }
  }

  lemma SteadyKeepsRecordInv(cfg: Config, x: World, y: World, id: JobId)
    requires Inv(cfg, x) && OnlyOneChanged(x, y, id) && y.cleared == x.cleared && y.log == x.log
    requires RecordOk(y.records[id]) && Steady(x.records[id], y.records[id])
    requires RunOf(y.records[id]).worker.Some? ==> y.workers == x.workers
    ensures RecordInv(cfg, y, id)
  {
    hide RecordOk, RowsBacked;
    assert RecordInv(cfg, x, id);
    SteadyBacked(id, x.records[id], y.records[id], x.log);
  }

  lemma SteadyKeepsInv(cfg: Config, x: World, y: World, id: JobId)
    requires Inv(cfg, x) && OnlyOneChanged(x, y, id) && y.log == x.log
    requires y.control == x.control && y.cleared == x.cleared && y.sent == x.sent
    requires RecordOk(y.records[id]) && Steady(x.records[id], y.records[id])
    requires RunOf(y.records[id]).worker.Some? ==> y.workers == x.workers
    ensures Inv(cfg, y)
  {
    hide RecordInv, RecordOk;
    SteadyKeepsRecordInv(cfg, x, y, id);
    OneRecordKeepsInv(cfg, x, y, id);
  }

  lemma JobStepOk(rec: Record, e: JobEvent)
    requires RecordOk(rec) && JobEnabled(rec, e)
    ensures RecordOk(JobStep(rec, e)) && Steady(rec, JobStep(rec, e))
  {
    hide CountersAgree, RowsAgree, Queued, Retried, Edited, PauseAsked, Resumed, Prioritized, InfectedActed;
    match e {
      case Move(job) =>
      case Enqueue(now) => QueuedOk(rec, now);
      case Retry(o, now) => RetriedOk(rec, o, now);
      case Edit(expected, folder) => EditedOk(rec, expected, folder);
      case Pause => PauseAskedOk(rec);
      case Resume(now) => ResumedOk(rec, now);
      case Prioritize(now) => PrioritizedOk(rec, now);
      case ActOnInfection(step) => InfectedActedOk(rec, step);
    }
  }

  lemma WorkerStepOk(rec: Record, w: WorkerId, e: WorkerEvent, cfg: Settings)
    requires RecordOk(rec)
    requires (e.PauseHere? || e.Yield?) && Owns(rec, w) ==>
               NoneInProgress(rec.run.value.files) && rec.run.value.currentFile.None?
    ensures RecordOk(WorkerStep(rec, w, e, cfg)) && Steady(rec, WorkerStep(rec, w, e, cfg))
  {
    match e {
      case Heartbeat(now) =>
      case PauseHere => PausedAtCheckpointOk(rec, w);
      case Yield(now) => YieldedOk(rec, w, now);
      case Interrupt(now) => InterruptedOk(rec, w, now);
      case Defer(now, after) => DeferredOk(rec, w, now, after);
      case FailAttempt(now) => AttemptFailedOk(rec, w, now, cfg);
      case Refuse => PolicyRefusedOk(rec, w);
    }
  }

  lemma OnJobKeepsInv(cfg: Config, x: World, id: JobId, e: JobEvent)
    requires Inv(cfg, x) && id in x.records && JobEnabled(x.records[id], e)
    ensures Inv(cfg, Put(x, id, JobStep(x.records[id], e)))
  {
    hide RecordOk, Steady, JobStep, JobEnabled;
    assert RecordInv(cfg, x, id);
    JobStepOk(x.records[id], e);
    SteadyKeepsInv(cfg, x, Put(x, id, JobStep(x.records[id], e)), id);
  }

  // Forgetting what a worker was doing is harmless once it has nothing in flight.
  lemma PhaseResetKeepsInv(cfg: Config, y: World, w: WorkerId)
    requires Inv(cfg, y) && Live(y, w)
    requires Owns(OfWorker(y, w), w) ==> !y.workers[w].phase.InFlight?
    ensures Inv(cfg, At(y, w, AtTop))
  {
    hide RecordOk, Backed, FolderAgrees;
    var z := At(y, w, AtTop);
    var id := y.workers[w].job;
    assert RecordInv(cfg, y, id);
    assert RecordInv(cfg, z, id);
    OneRecordKeepsInv(cfg, y, z, id);
  }

  // Only a heartbeat, or a checkpoint that changed nothing, leaves the worker in charge.
  lemma StillOwned(rec: Record, w: WorkerId, e: WorkerEvent, cfg: Settings)
    requires Owns(WorkerStep(rec, w, e, cfg), w) && !e.Heartbeat?
    ensures (e.PauseHere? || e.Yield?) && WorkerStep(rec, w, e, cfg) == rec
  {
  }

  lemma OnWorkerKeepsInv(cfg: Config, x: World, w: WorkerId, e: WorkerEvent)
    requires Inv(cfg, x) && Live(x, w) && WorkerEnabled(x.workers[w].phase, e)
    ensures Inv(cfg, Put(x, x.workers[w].job, WorkerStep(OfWorker(x, w), w, e, cfg.settings)))
    ensures !e.Heartbeat? ==>
              Inv(cfg, At(Put(x, x.workers[w].job, WorkerStep(OfWorker(x, w), w, e, cfg.settings)), w, AtTop))
  {
    hide RecordOk, Backed, FolderAgrees, WorkerStep, Steady;
    var id := x.workers[w].job;
    assert RecordInv(cfg, x, id);
    WorkerStepOk(x.records[id], w, e, cfg.settings);
    var rec := WorkerStep(x.records[id], w, e, cfg.settings);
    SteadyKeepsInv(cfg, x, Put(x, id, rec), id);
    if !e.Heartbeat? {
      if Owns(rec, w) {
        StillOwned(x.records[id], w, e, cfg.settings);
      }
      PhaseResetKeepsInv(cfg, Put(x, id, rec), w);
    }
  }

  // A rebuild keeps a clean row only while the identity and the root that cleared it stand.
  lemma PreparedBacked(rec: Record, w: WorkerId, root: Path, manifest: seq<ManifestEntry>, identity: Identity,
                       id: JobId, log: set<ScanEvent>)
    requires RecordOk(rec) && DistinctEntries(manifest) && Backed(id, RunOf(rec), log)
    ensures Backed(id, RunOf(Prepared(rec, w, root, manifest, identity)), log)
  {
    if Owns(rec, w) {
      var run := rec.run.value;
      var kept := if run.rootPath == Some(root) then run.files else [];
      RebuiltRows(kept, manifest, IdentityDiffers(run, identity));
    }
  }

  lemma PreparedPhase(rec: Record, w: WorkerId, root: Path, manifest: seq<ManifestEntry>, identity: Identity)
    requires RecordOk(rec) && DistinctEntries(manifest)
    ensures var after := Prepared(rec, w, root, manifest, identity);
            if Owns(rec, w) then
              PhaseAgrees(RunOf(after), Rebuilt(root, manifest)) && PhaseAgrees(RunOf(after), AtTop)
            else after == rec
    ensures Prepared(rec, w, root, manifest, identity).job == rec.job
    ensures RunOf(Prepared(rec, w, root, manifest, identity)).worker == RunOf(rec).worker
  {
    PreparedOk(rec, w, root, manifest, identity);
  }

  lemma PrepareKeepsInv(cfg: Config, x: World, w: WorkerId, root: Path, manifest: seq<ManifestEntry>,
                        identity: Identity, last: bool)
    requires Inv(cfg, x) && Live(x, w)
    requires CanPrepare(OfWorker(x, w), w, x.workers[w].phase, manifest, identity, last)
    ensures Inv(cfg, AfterPrepare(x, w, root, manifest, identity, last))
  {
    hide RecordOk, Backed, FolderAgrees, Prepared, PhaseAgrees;
    var y := AfterPrepare(x, w, root, manifest, identity, last);
    var id := x.workers[w].job;
    assert RecordInv(cfg, x, id);
    PreparedOk(x.records[id], w, root, manifest, identity);
    PreparedBacked(x.records[id], w, root, manifest, identity, id, x.log);
    PreparedPhase(x.records[id], w, root, manifest, identity);
    assert RecordInv(cfg, y, id);
    OneRecordKeepsInv(cfg, x, y, id);
  }

  lemma StartedFacts(rec: Record, w: WorkerId, i: nat, stamp: Fingerprint, identity: Identity, now: Time,
                     cfg: Settings, id: JobId, log: set<ScanEvent>)
    requires RecordOk(rec) && CanStart(rec, w, AtTop, i, identity) && NoneInProgress(rec.run.value.files)
    requires Backed(id, RunOf(rec), log)
    ensures var after := Started(rec, w, i, stamp, identity, now, cfg);
            Backed(id, RunOf(after), log) && after.job == rec.job && RunOf(after).worker == Some(w)
            && PhaseAgrees(RunOf(after), InFlight(rec.run.value.rootPath.value, i, rec.run.value.files[i].path,
                stamp, identity))
  {
    hide CountersAgree, RowsAgree, VerdictAgrees, LeaseAgrees;
  }

  lemma StartKeepsInv(cfg: Config, x: World, w: WorkerId, i: nat, stamp: Fingerprint, identity: Identity, now: Time)
    requires Inv(cfg, x) && Live(x, w) && CanStart(OfWorker(x, w), w, x.workers[w].phase, i, identity)
    ensures Inv(cfg, AfterStart(cfg, x, w, i, stamp, identity, now))
  {
    hide RecordOk, Backed, FolderAgrees, Started, NextFile, IdentityDiffers, NoneInProgress, OneInProgress;
    var y := AfterStart(cfg, x, w, i, stamp, identity, now);
    var id := x.workers[w].job;
    assert RecordInv(cfg, x, id);
    StartedOk(x.records[id], w, i, stamp, identity, now, cfg.settings);
    StartedFacts(x.records[id], w, i, stamp, identity, now, cfg.settings, id, x.log);
    assert RecordInv(cfg, y, id);
    OneRecordKeepsInv(cfg, x, y, id);
  }

  lemma ScannedFacts(rec: Record, w: WorkerId, i: nat, infected: bool, threat: string, identity: Identity,
                     root: Path, stamp: Fingerprint, path: string, id: JobId, log: set<ScanEvent>)
    requires Backed(id, RunOf(rec), log)
    requires Owns(rec, w) ==> PhaseAgrees(RunOf(rec), InFlight(root, i, path, stamp, identity))
    ensures var after := Scanned(rec, w, i, infected, threat, identity);
            Backed(id, RunOf(after), log + {ScanEvent(id, root, path, stamp, identity, infected)})
            && (if Owns(rec, w) then
                  (RunOf(after).worker.None? || (RunOf(after).worker == Some(w) && PhaseAgrees(RunOf(after), AtTop)))
                  && !CleanSide(after.job.state) == !(CleanSide(rec.job.state) && !infected)
                  && after.job.finalParent == rec.job.finalParent
                  && (after.job.state == Scanning ==> rec.job.state == Scanning)
                else after == rec)
  {
  }

  lemma AnswerKeepsInv(cfg: Config, x: World, w: WorkerId, infected: bool, threat: string)
    requires Inv(cfg, x) && Live(x, w) && x.workers[w].phase.InFlight?
    ensures Inv(cfg, AfterAnswer(x, w, infected, threat))
  {
    hide BooksAgree, VerdictAgrees, Backed, Scanned, NoneInProgress, RowsMatch;
    var y := AfterAnswer(x, w, infected, threat);
    var id := x.workers[w].job;
    assert RecordInv(cfg, x, id);
    var p := x.workers[w].phase;
    ScannedOk(x.records[id], w, p.index, infected, threat, p.identity);
    ScannedFacts(x.records[id], w, p.index, infected, threat, p.identity, p.root, p.stamp, p.path, id, x.log);
    assert RecordInv(cfg, y, id);
    OneRecordKeepsInv(cfg, x, y, id);
  }

  lemma FinishedCleanFacts(rec: Record, w: WorkerId)
    requires RecordOk(rec) && FinishedClean(rec, w) != rec
    ensures var after := FinishedClean(rec, w);
            rec.job.state == Scanning && after.job.state == ScanClean && after.job.finalParent == rec.job.finalParent
            && RunOf(after).worker.None? && RunOf(after).files == RunOf(rec).files
            && RunOf(after).rootPath == RunOf(rec).rootPath && RunOf(after).identity == RunOf(rec).identity
  {
    hide BooksAgree, VerdictAgrees, NoneInProgress;
  }

  lemma FinishedRecordInv(cfg: Config, x: World, w: WorkerId)
    requires Live(x, w) && RecordInv(cfg, x, x.workers[w].job)
    requires FinishedClean(OfWorker(x, w), w) != OfWorker(x, w)
    requires RecordOk(FinishedClean(OfWorker(x, w), w))
    ensures RecordInv(cfg, AfterFinishClean(x, w), x.workers[w].job)
    ensures x.workers[w].job !in x.cleared && FinishedClean(OfWorker(x, w), w).job.state == ScanClean
  {
    hide RecordOk, RowsBacked, PhaseAgrees;
    FinishedCleanFacts(OfWorker(x, w), w);
    hide FinishedClean;
  }

  lemma FinishCleanKeepsInv(cfg: Config, x: World, w: WorkerId)
    requires Inv(cfg, x) && Live(x, w) && x.workers[w].phase.Rebuilt?
    ensures Inv(cfg, AfterFinishClean(x, w))
  {
    hide RecordInv, FinishedClean, RecordOk, HistoryInv, SlotsKept;
    var id := x.workers[w].job;
    assert RecordInv(cfg, x, id);
    if FinishedClean(x.records[id], w) == x.records[id] {
      PhaseResetKeepsInv(cfg, x, w);
      assert Put(x, id, x.records[id]) == x;
    } else {
      FinishingIsOk(cfg, x, w);
      FinishedRecordInv(cfg, x, w);
      FinishCleanHistory(cfg, x, AfterFinishClean(x, w), id);
    }
  }

  lemma FinishingIsOk(cfg: Config, x: World, w: WorkerId)
    requires Live(x, w) && RecordInv(cfg, x, x.workers[w].job) && x.workers[w].phase.Rebuilt?
    ensures RecordOk(FinishedClean(OfWorker(x, w), w))
  {
    hide RowsBacked, FinishedClean;
    HolderNotInFlight(cfg, x, w);
    FinishedCleanOk(OfWorker(x, w), w);
  }

  lemma HolderNotInFlight(cfg: Config, x: World, w: WorkerId)
    requires Live(x, w) && RecordInv(cfg, x, x.workers[w].job) && x.workers[w].phase.Rebuilt?
    ensures Owns(OfWorker(x, w), w) ==> NoneInProgress(OfWorker(x, w).run.value.files)
  {
    hide RecordOk, RowsBacked;
  }

  // A first clean verdict adds the job's folder to the history and touches no older entry.
  lemma FinishCleanHistory(cfg: Config, x: World, y: World, id: JobId)
    requires Inv(cfg, x) && OnlyOneChanged(x, y, id) && y.control == x.control && y.sent == x.sent
    requires id !in x.cleared && y.cleared == x.cleared[id := y.records[id].job.finalParent]
    requires RecordInv(cfg, y, id) && y.records[id].job.state != Scanning
    ensures Inv(cfg, y)
  {
    hide RecordInv;
    OthersKeepInv(cfg, x, y, id);
    ScanningShrinks(cfg, x, y, id);
    forall s <- y.sent
      ensures SentToClearedFolder(cfg, s, y.cleared)
    {
      assert SentToClearedFolder(cfg, s, x.cleared);
    }
  }

  lemma CanonicalFolder(cfg: Config, job: Job, after: Job, folder: Path, id: JobId, cleared: map<JobId, Path>)
    requires cfg.Valid() && CleanSide(job.state) && FolderAgrees(cfg, id, job, cleared)
    requires cfg.canon(job.finalParent) == Some(folder)
    ensures SentToClearedFolder(cfg, (id, folder), cleared)
    ensures CleanSide(after.state) && after.finalParent == folder ==> FolderAgrees(cfg, id, after, cleared)
  {}

  // A promotion pass touches only the job, and leaves it as it was or on the clean side in the given folder.
  predicate MovesTo(rec: Record, after: Record, folder: Path) {
    after.run == rec.run
    && (after.job == rec.job || (CleanSide(after.job.state) && after.job.finalParent == folder))
  }

  lemma MarksMove(rec: Record, canon: Path -> Option<Path>, folder: Path, contentPath: Path, hook: bool)
    requires canon(rec.job.finalParent) == Some(folder)
    ensures MovesTo(rec, Canonicalized(rec, folder), folder)
    ensures MovesTo(rec, Begun(rec, canon), folder)
    ensures MovesTo(rec, AtDestination(Canonicalized(rec, folder), contentPath, hook), folder)
  {}

  lemma ReconcileMoves(rec: Record, canon: Path -> Option<Path>, t: Option<Torrent>, hook: bool, folder: Path)
    requires canon(rec.job.finalParent) == Some(folder)
    ensures var (after, done) := Reconcile(rec, canon, t, hook);
            MovesTo(rec, after, folder) && (done.Ok? && done.value.LocationSent? ==> done.value.folder == folder)
  {
    hide Begun, Canonicalized, AtDestination, MovesTo;
    MarksMove(rec, canon, folder, match t case Some(x) => x.contentPath case None => [], hook);
  }

  // Promotion moves the job along the clean side, to the canonical form of the cleared folder.
  lemma ReconcileFacts(cfg: Config, rec: Record, t: Option<Torrent>, hook: bool, id: JobId, cleared: map<JobId, Path>)
    requires cfg.Valid() && CleanPass(rec) && FolderAgrees(cfg, id, rec.job, cleared)
    ensures var (after, done) := Reconcile(rec, cfg.canon, t, hook);
            FolderAgrees(cfg, id, after.job, cleared) && after.run == rec.run && after.job.state != Scanning
            && (done.Ok? && done.value.LocationSent? ==> SentToClearedFolder(cfg, (id, done.value.folder), cleared))
  {
    hide FolderAgrees, SentToClearedFolder;
    if cfg.canon(rec.job.finalParent).Some? {
      hide Reconcile;
      var folder := cfg.canon(rec.job.finalParent).value;
      ReconcileMoves(rec, cfg.canon, t, hook, folder);
      CanonicalFolder(cfg, rec.job, Reconcile(rec, cfg.canon, t, hook).0.job, folder, id, cleared);
    }
  }

  lemma PromoteKeepsInv(cfg: Config, x: World, id: JobId, t: Option<Torrent>, hook: bool)
    requires cfg.Valid() && Inv(cfg, x) && id in x.records && CleanPass(x.records[id])
    ensures Inv(cfg, AfterPromote(cfg, x, id, t, hook))
  {
    hide RecordOk, Backed, OwnerAgrees, Reconcile, FolderAgrees;
    var y := AfterPromote(cfg, x, id, t, hook);
    assert RecordInv(cfg, x, id);
    PromotionOk(x.records[id], cfg.canon, t, hook);
    ReconcileFacts(cfg, x.records[id], t, hook, id, x.cleared);
    assert RecordInv(cfg, y, id);
    OthersKeepInv(cfg, x, y, id);
    ScanningShrinks(cfg, x, y, id);
    assert HistoryInv(cfg, y);
  }

  lemma FreshRecordOk(id: JobId, job: Job, log: set<ScanEvent>)
    requires Fresh(job)
    ensures RecordOk(Record(job, None)) && Backed(id, NewRun, log) && !CleanSide(job.state) && job.state != Scanning
  {}

  lemma SubmitKeepsInv(cfg: Config, x: World, id: JobId, job: Job)
    requires Inv(cfg, x) && id !in x.used && Fresh(job)
    ensures Inv(cfg, Put(x, id, Record(job, None)).(used := x.used + {id}))
  {
    hide RecordOk, Backed, PhaseAgrees, Fresh;
    var y := Put(x, id, Record(job, None)).(used := x.used + {id});
    FreshRecordOk(id, job, x.log);
    forall other | other in y.records
      ensures RecordInv(cfg, y, other)
    {
      if other != id {
        assert RecordInv(cfg, x, other);
      }
    }
    SubsetSize(InState(y.records, Scanning), InState(x.records, Scanning));
  }

  lemma DeleteKeepsInv(cfg: Config, x: World, id: JobId)
    requires Inv(cfg, x) && id in x.records
    ensures Inv(cfg, x.(records := x.records - {id}))
  {
    hide RecordOk;
    var y := x.(records := x.records - {id});
    forall other | other in y.records
      ensures RecordInv(cfg, y, other)
    {
      assert RecordInv(cfg, x, other);
    }
    SubsetSize(InState(y.records, Scanning), InState(x.records, Scanning));
  }

  lemma RecoverKeepsInv(cfg: Config, x: World, now: Time, force: bool)
    requires Inv(cfg, x)
    ensures Inv(cfg, x.(records := RecoverAll(x.records, now, force)))
  {
    hide RecordOk, Recovered, RowsBacked;
    var y := x.(records := RecoverAll(x.records, now, force));
    forall id | id in y.records
      ensures RecordInv(cfg, y, id)
      ensures y.records[id].job.state == Scanning ==> x.records[id].job.state == Scanning
    {
      assert RecordInv(cfg, x, id);
      RecoveredOk(x.records[id], now, force);
      var one := Put(x, id, Recovered(x.records[id], now, force));
      SteadyKeepsRecordInv(cfg, x, one, id);
      assert RecordInv(cfg, one, id);
    }
    SubsetSize(InState(y.records, Scanning), InState(x.records, Scanning));
  }

  // ---------- the scheduler cycle ----------

  predicate Claimable(records: map<JobId, Record>, order: seq<JobId>) {
    (forall i, j :: 0 <= i < j < |order| ==> order[i] != order[j])
    && forall id <- order :: id in records && records[id].run.Some? && records[id].job.state == ScanPending
  }

  lemma ClaimedOk(cfg: Config, x: World, id: JobId, w: WorkerId, now: Time)
    requires id in x.records && RecordInv(cfg, x, id)
    requires x.records[id].job.state == ScanPending && x.records[id].run.Some?
    ensures var rec := Claimed(x.records[id], w, now, cfg.settings);
            RecordOk(rec) && Backed(id, RunOf(rec), x.log) && FolderAgrees(cfg, id, rec.job, x.cleared)
            && RunOf(rec).worker == Some(w) && PhaseAgrees(RunOf(rec), AtTop)
  {
    hide CountersAgree, RowsAgree, RowsBacked, NoneInProgress;
  }

  lemma ClaimOneKeepsInv(cfg: Config, x: World, id: JobId, now: Time)
    requires Inv(cfg, x) && id in x.records
    requires x.records[id].run.Some? && x.records[id].job.state == ScanPending
    requires |InState(x.records, Scanning)| < cfg.settings.HardMaxSlots()
    ensures Inv(cfg, ClaimOne(x, id, now, cfg.settings))
    ensures |InState(ClaimOne(x, id, now, cfg.settings).records, Scanning)| == |InState(x.records, Scanning)| + 1
  {
    hide RecordInv, Claimed;
    var y := ClaimOne(x, id, now, cfg.settings);
    forall other | other in y.records
      ensures RecordInv(cfg, y, other)
    {
      assert RecordInv(cfg, x, other);
      OthersSeeClaim(cfg, x, id, other, now);
    }
    ClaimedScans(x.records[id], x.nextWorker, now, cfg.settings);
    assert InState(y.records, Scanning) == InState(x.records, Scanning) + {id};
  }

  lemma ClaimedScans(rec: Record, w: WorkerId, now: Time, cfg: Settings)
    requires rec.run.Some?
    ensures Claimed(rec, w, now, cfg).job.state == Scanning
  {}

  lemma OthersSeeClaim(cfg: Config, x: World, id: JobId, other: JobId, now: Time)
    requires HistoryInv(cfg, x) && other in x.records && RecordInv(cfg, x, other)
    requires id in x.records && x.records[id].run.Some? && x.records[id].job.state == ScanPending
    ensures RecordInv(cfg, ClaimOne(x, id, now, cfg.settings), other)
  {
    hide RecordOk, Backed, FolderAgrees, PhaseAgrees;
    if other == id { ClaimedOk(cfg, x, id, x.nextWorker, now); }
  }

  lemma {:induction false} ClaimLoopKeepsInv(cfg: Config, x: World, order: seq<JobId>, available: int, large: int,
      now: Time)
    requires Inv(cfg, x) && Claimable(x.records, order) && available >= 0
    requires |InState(x.records, Scanning)| + available <= cfg.settings.HardMaxSlots()
    ensures Inv(cfg, ClaimLoop(x, order, available, large, now, cfg.settings).0)
    decreases |order|
  {
    hide Inv, IsLarge;
    if order != [] && available > 0 {
      var id, rest := order[0], order[1..];
      assert id in order && id !in rest;
      if IsLarge(x.records[id], cfg.settings) && large >= cfg.settings.MaxLarge() {
        ClaimLoopKeepsInv(cfg, x, rest, available, large, now);
      } else {
        var y := ClaimOne(x, id, now, cfg.settings);
        ClaimOneKeepsInv(cfg, x, id, now);
        ClaimLoopKeepsInv(cfg, y, rest, available - 1,
                          if IsLarge(x.records[id], cfg.settings) then large + 1 else large, now);
      }
    }
  }

  // A cycle that claims a large scan stays within the large-scan limit, and within its free slots.
  lemma {:induction false} ClaimsAreCapped(x: World, order: seq<JobId>, available: int, large: int, now: Time,
      cfg: Settings)
    requires Claimable(x.records, order) && available >= 0
    ensures var claims := ClaimLoop(x, order, available, large, now, cfg).1;
            |claims| <= available && (CountLarge(claims) > 0 ==> large + CountLarge(claims) <= cfg.MaxLarge())
    decreases |order|
  {
    if order != [] && available > 0 {
      var id, rest := order[0], order[1..];
      assert id in order && id !in rest;
      if IsLarge(x.records[id], cfg) && large >= cfg.MaxLarge() {
        ClaimsAreCapped(x, rest, available, large, now, cfg);
      } else {
        var y := ClaimOne(x, id, now, cfg);
        var large' := if IsLarge(x.records[id], cfg) then large + 1 else large;
        ClaimsAreCapped(y, rest, available - 1, large', now, cfg);
        var claims := ClaimLoop(y, rest, available - 1, large', now, cfg).1;
        assert ([Claim(id, x.nextWorker, IsLarge(x.records[id], cfg))] + claims)[1..] == claims;
      }
    }
  }

  function CountLarge(claims: seq<Claim>): nat {
    if claims == [] then 0 else (if claims[0].isLarge then 1 else 0) + CountLarge(claims[1..])
  }

  // After recovery every scanning job is under a lease that has not run out.
  lemma StillScanning(rec: Record, now: Time)
    requires RecordOk(rec) && Recovered(rec, now, false).job.state == Scanning
    ensures var run := Recovered(rec, now, false).run;
            run.Some? && run.value.leaseExpiresAt.Some? && run.value.leaseExpiresAt.value > now
  {
    hide BooksAgree, NoneInProgress;
  }

  lemma RecoveredAreActive(cfg: Config, x: World, now: Time)
    requires Inv(cfg, x)
    ensures Active(RecoverAll(x.records, now, false), now) == InState(RecoverAll(x.records, now, false), Scanning)
  {
    hide Recovered, RecordOk;
    var after := RecoverAll(x.records, now, false);
    forall id | id in after && after[id].job.state == Scanning
      ensures id in Active(after, now)
    {
      assert RecordInv(cfg, x, id);
      StillScanning(x.records[id], now);
    }
  }

  lemma ControlIsFree(cfg: Config, x: World, control: Control)
    requires Inv(cfg, x)
    ensures Inv(cfg, x.(control := control))
  {
    hide RecordOk, Backed, OwnerAgrees, FolderAgrees;
    var y := x.(control := control);
    forall id <- y.records ensures RecordInv(cfg, y, id) { assert RecordInv(cfg, x, id); }
  }

  lemma SlotsWithinMaximum(c: Control, records: map<JobId, Record>, cfg: Settings)
    ensures 1 <= RelaxedControl(ClampedControl(c, cfg), records, cfg).slots <= cfg.HardMaxSlots()
  {
  }

  lemma ClaimsAfterRecoveryKeepInv(cfg: Config, x: World, order: seq<JobId>, large: int, now: Time)
    requires Inv(cfg, x) && CandidateOrder(x.records, order, now)
    requires Active(x.records, now) == InState(x.records, Scanning)
    requires x.control.slots <= cfg.settings.HardMaxSlots()
    ensures var available := Max(x.control.slots - |Active(x.records, now)|, 0);
            Inv(cfg, ClaimLoop(x, order, available, large, now, cfg.settings).0)
  {
    hide RecordInv, HistoryInv, ClaimLoop, Active, InState, IsLarge;
    assert Claimable(x.records, order);
    ClaimLoopKeepsInv(cfg, x, order, Max(x.control.slots - |Active(x.records, now)|, 0), large, now);
  }

  lemma CandidatesHaveRuns(records: map<JobId, Record>, order: seq<JobId>, now: Time)
    requires CandidateOrder(records, order, now)
    ensures forall id <- order :: id in records && records[id].run.Some?
  {}

  lemma ScheduleKeepsInv(cfg: Config, x: World, now: Time, order: seq<JobId>, maintenance: bool, canScan: bool)
    requires Inv(cfg, x) && CandidateOrder(RecoverAll(x.records, now, false), order, now)
    ensures Inv(cfg, SchedulerCycle(x, order, now, maintenance, canScan, cfg.settings).0)
  {
    hide Inv, RecoverAll, ClaimLoop, Active, ActiveLarge, InState, CandidateOrder, RelaxedControl, ClampedControl;
    var settings := cfg.settings;
    RecoverKeepsInv(cfg, x, now, false);
    RecoveredAreActive(cfg, x, now);
    var x0 := x.(records := RecoverAll(x.records, now, false));
    var x1 := x0.(control := ClampedControl(x.control, settings));
    ControlIsFree(cfg, x0, x1.control);
    if !maintenance && canScan {
      var x2 := x1.(control := RelaxedControl(x1.control, x1.records, settings));
      ControlIsFree(cfg, x1, x2.control);
      SlotsWithinMaximum(x.control, x1.records, settings);
      var available := Max(x2.control.slots - |Active(x2.records, now)|, 0);
      if available != 0 {
        var large := |ActiveLarge(x2.records, now, settings)|;
        ClaimsAfterRecoveryKeepInv(cfg, x2, order, large, now);
        CandidatesHaveRuns(x2.records, order, now);
        var x3 := ClaimLoop(x2, order, available, large, now, settings).0;
        ControlIsFree(cfg, x3, RelaxedControl(x3.control, x3.records, settings));
      }
    }
  }
}
