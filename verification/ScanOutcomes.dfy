// What the steps of a run lead to: when a job becomes infected, cleared, failed or done, when a folder is
// sent to qBittorrent, and what each recorded answer or ending leaves behind.
module ScanOutcomes {
  import opened Options
  import opened ScanModel
  import opened Promotion
  import opened ScanRuns
  import opened ScanSafety
  import opened ScanTheorems
  import opened ScanLimits

  // The worker scans this job and still holds its lease.
  predicate InCharge(x: World, w: WorkerId, id: JobId) {
    HoldsLease(x, w) && x.workers[w].job == id
  }

  predicate HoldsNothing(run: Run) {
    run.worker.None? && run.leaseExpiresAt.None? && run.heartbeatAt.None? && run.currentFile.None?
  }

  // Only the row at i differs.
  predicate OtherRowsKept(files: seq<FileRow>, after: seq<FileRow>, i: nat) {
    |after| == |files| && forall j :: 0 <= j < |files| && j != i ==> after[j] == files[j]
  }

  // The rows in progress got the given status, and nothing else changed.
  predicate HandedBack(files: seq<FileRow>, after: seq<FileRow>, status: FileStatus) {
    |after| == |files|
    && forall j :: 0 <= j < |files| ==>
         after[j] == if files[j].status == InProgress then files[j].(status := status) else files[j]
  }

  lemma ChargeFacts(cfg: Config, xs: seq<World>, es: seq<Event>, i: nat, w: WorkerId)
    requires cfg.Valid() && IsRun(cfg, xs, es) && i < |xs| && HoldsLease(xs[i], w)
    ensures var id := xs[i].workers[w].job;
            RecordOk(xs[i].records[id]) && xs[i].records[id].job.state == Scanning
            && PhaseAgrees(RunOf(xs[i].records[id]), xs[i].workers[w].phase)
  {
    hide RecordOk, Apply, Enabled, HistoryInv, SlotsKept, PhaseAgrees;
    RunsKeepInv(cfg, xs, es, i);
    assert RecordInv(cfg, xs[i], xs[i].workers[w].job);
    OwnerScans(OfWorker(xs[i], w), w);
  }

  // ---------- scan answers ----------

  // The scanner's answer about the file in flight, given by the worker in charge.
  predicate AnswersFor(xs: seq<World>, es: seq<Event>, i: nat, w: WorkerId, infected: bool, threat: string) {
    i < |es| && |xs| == |es| + 1 && es[i] == Answer(w, infected, threat) && HoldsLease(xs[i], w)
    && xs[i].workers[w].phase.InFlight?
  }

  lemma AnswerIsOfFileInFlight(cfg: Config, xs: seq<World>, es: seq<Event>, i: nat, w: WorkerId, infected: bool,
                               threat: string)
    requires cfg.Valid() && IsRun(cfg, xs, es) && i < |es|
    requires es[i] == Answer(w, infected, threat) && HoldsLease(xs[i], w)
    ensures AnswersFor(xs, es, i, w, infected, threat)
    ensures var p := xs[i].workers[w].phase;
            var files := RunOf(OfWorker(xs[i], w)).files;
            OneInProgress(files, p.index) && files[p.index].path == p.path && files[p.index].stamp == p.stamp
    ensures xs[i + 1] == AfterAnswer(xs[i], w, infected, threat)
  {
    hide RecordOk, OneInProgress, AfterAnswer;
    ChargeFacts(cfg, xs, es, i, w);
  }

  // An infected answer ends the scan: the job is infected by the named threat, the verdict is recorded, the
  // lease is given up, and the row of the file in flight is infected under the identity it was scanned with.
  lemma InfectedAnswerIsRecorded(cfg: Config, xs: seq<World>, es: seq<Event>, i: nat, w: WorkerId, threat: string)
    requires cfg.Valid() && IsRun(cfg, xs, es) && i < |es|
    requires es[i] == Answer(w, true, threat) && HoldsLease(xs[i], w)
    ensures AnswersFor(xs, es, i, w, true, threat)
    ensures var id, p := xs[i].workers[w].job, xs[i].workers[w].phase;
            id in xs[i + 1].records
            && var rec, after := xs[i].records[id], xs[i + 1].records[id];
               var job, run, before := after.job, RunOf(after), RunOf(rec);
               job == rec.job.(state := ScanInfected, threat := Some(threat), scanCompleted := true)
               && run.verdict == Some(VerdictInfected) && HoldsNothing(run)
               && p.index < |run.files| && OtherRowsKept(before.files, run.files, p.index)
               && run.files[p.index].path == p.path && run.files[p.index].stamp == p.stamp
               && run.files[p.index].status == Infected && run.files[p.index].scannedBy == Some(p.identity)
               && ScanEvent(id, p.root, p.path, p.stamp, p.identity, true) in xs[i + 1].log
  {
    hide RecordOk;
    AnswerIsOfFileInFlight(cfg, xs, es, i, w, true, threat);
  }

  // A clean answer keeps the scan going: only the row of the file in flight becomes clean, it is counted
  // once, and earlier failures are forgotten.
  lemma CleanAnswerIsRecorded(cfg: Config, xs: seq<World>, es: seq<Event>, i: nat, w: WorkerId, threat: string)
    requires cfg.Valid() && IsRun(cfg, xs, es) && i < |es|
    requires es[i] == Answer(w, false, threat) && HoldsLease(xs[i], w)
    ensures AnswersFor(xs, es, i, w, false, threat)
    ensures var id, p := xs[i].workers[w].job, xs[i].workers[w].phase;
            InCharge(xs[i + 1], w, id)
            && var run, before := RunOf(xs[i + 1].records[id]), RunOf(xs[i].records[id]);
               xs[i + 1].records[id].job == xs[i].records[id].job
               && run.leaseExpiresAt == before.leaseExpiresAt && run.pauseRequested == before.pauseRequested
               && run.verdict.None? && run.failureCount == 0
               && run.completedFiles == before.completedFiles + 1
               && run.completedBytes == before.completedBytes + p.stamp.size
               && p.index < |run.files| && OtherRowsKept(before.files, run.files, p.index)
               && run.files[p.index].path == p.path && run.files[p.index].stamp == p.stamp
               && run.files[p.index].status == Clean && run.files[p.index].scannedBy == Some(p.identity)
               && ScanEvent(id, p.root, p.path, p.stamp, p.identity, false) in xs[i + 1].log
  {
    ChargeFacts(cfg, xs, es, i, w);
    assert VerdictAgrees(Scanning, RunOf(OfWorker(xs[i], w)));
    hide RecordOk;
    AnswerIsOfFileInFlight(cfg, xs, es, i, w, false, threat);
  }

  lemma JobEventKeepsSides(rec: Record, e: JobEvent)
    requires RecordOk(rec) && JobEnabled(rec, e)
    ensures InfectedSide(JobStep(rec, e).job.state) == InfectedSide(rec.job.state)
    ensures InfectedSide(rec.job.state) ==> JobStep(rec, e).job.threat == rec.job.threat
    ensures CleanSide(rec.job.state) ==> JobStep(rec, e) == rec
    ensures CleanSide(JobStep(rec, e).job.state) == CleanSide(rec.job.state)
  {
    hide BooksAgree, NoneInProgress, PreparedForRetry, Reattached;
    if e.Retry? {
      RetriedSides(rec, e.outcome, e.now);
      hide Retried;
    }
  }

  lemma RetriedSides(rec: Record, o: RetryOutcome, now: Time)
    requires RecordOk(rec) && RetryOutcomePossible(o)
    ensures if rec.job.state == Failed then
              var s := Retried(rec, o, now).job.state; BeforeScan(s) || s == ScanPending || s == Failed
            else Retried(rec, o, now) == rec
  {
    if rec.job.state == Failed {
      hide Retried, RecordOk;
      RetryStaysBeforeScan(rec, o, now);
    }
  }

  // A worker without the lease, a recovery and a claim leave a job outside the queue as it is.
  lemma WorkerStateMoves(rec: Record, w: WorkerId, e: WorkerEvent, cfg: Settings)
    requires RecordOk(rec)
    ensures var s := WorkerStep(rec, w, e, cfg).job.state;
            s == rec.job.state || (Owns(rec, w) && (s == ScanPending || s == ScanPaused || s == Failed))
    ensures WorkerStep(rec, w, e, cfg).job.state == Failed && rec.job.state != Failed
       <==> Owns(rec, w) && (e.Refuse? || (e.FailAttempt? && rec.run.value.failureCount + 1 >= cfg.maxFailures))
  {
    hide BooksAgree, NoneInProgress, Release, Backoff;
    if Owns(rec, w) { OwnerScans(rec, w); }
  }

  lemma RecoveredStateMoves(rec: Record, now: Time, force: bool)
    ensures var after := Recovered(rec, now, force);
            after.job == rec.job
            || (rec.job.state == Scanning && after.job == rec.job.(state := Resting(RunOf(rec))))
    ensures Recovered(rec, now, force).job.state != ScanPending ==> !Candidate(Recovered(rec, now, force), now)
  {
    hide Release;
  }

  // Nothing else brings a job onto the infected side.
  lemma ScanStepsDoNotInfect(cfg: Config, x: World, e: Event, id: JobId)
    requires (e.Prepare? || e.Start? || e.Answer? || e.FinishClean?) && e.w in x.workers && x.workers[e.w].job == id
    requires Inv(cfg, x) && Enabled(cfg, x, e) && id in x.records && !InfectedSide(x.records[id].job.state)
    requires !(e.Answer? && e.infected && InCharge(x, e.w, id))
    ensures !InfectedSide(RecordAfter(cfg, x, e, id).job.state)
  {
    hide RecordInv, HistoryInv, SlotsKept, Prepared, Started, FinishedClean, CanPrepare, CanStart, InfectedSide;
    var rec := x.records[id];
    match e {
      case Prepare(w, root, manifest, identity, last) => PreparedKeepsJob(rec, w, root, manifest, identity);
      case Start(w, i, stamp, identity, now) => StartedKeepsJob(rec, w, i, stamp, identity, now, cfg.settings);
      case Answer(w, infected, threat) =>
        CleanAnswerKeepsJob(rec, w, x.workers[w].phase.index, infected, threat, x.workers[w].phase.identity);
      case FinishClean(w) => FinishedState(rec, w); NotInfected();
    }
  }

  lemma CleanAnswerKeepsJob(rec: Record, w: WorkerId, i: nat, infected: bool, threat: string, identity: Identity)
    requires !infected || !Owns(rec, w)
    ensures Scanned(rec, w, i, infected, threat, identity).job == rec.job
  {}

  lemma StepToInfected(cfg: Config, x: World, e: Event, id: JobId)
    requires Inv(cfg, x) && Enabled(cfg, x, e) && id in x.records && id in Apply(cfg, x, e).records
    requires !InfectedSide(x.records[id].job.state)
    requires !(e.Answer? && e.infected && InCharge(x, e.w, id))
    ensures !InfectedSide(Apply(cfg, x, e).records[id].job.state)
  {
    hide RecordOk, Backed, OwnerAgrees, FolderAgrees, SlotsKept, JobStep, WorkerStep, Recovered, Prepared, Started,
         JobEnabled, FinishedClean, SchedulerCycle, CanPrepare, CanStart, Reconcile, Apply, CandidateOrder, Fresh,
         Scanned, InfectedSide;
    AppliedTo(cfg, x, e, id);
    assert RecordInv(cfg, x, id);
    NotInfected();
    var rec := x.records[id];
    if e.Submit? {
      assert e.id != id;
    } else if e.OnJob? {
      if e.id == id { JobEventKeepsSides(rec, e.event); }
    } else if e.OnWorker? {
      if x.workers[e.w].job == id { WorkerStateMoves(rec, e.w, e.step, cfg.settings); }
    } else if e.Recover? {
      RecoveredStateMoves(rec, e.now, e.force);
    } else if e.Schedule? {
      ScheduleTouches(x, e.order, e.now, e.maintenance, e.canScan, cfg.settings, id);
      RecoveredStateMoves(rec, e.now, false);
    } else if e.Promote? {
      if e.id == id { ReconciledState(rec, cfg.canon, e.torrent, e.hookAccepts); }
    } else if (e.Prepare? || e.Start? || e.Answer? || e.FinishClean?) && x.workers[e.w].job == id {
      ScanStepsDoNotInfect(cfg, x, e, id);
    }
  }

  lemma NotInfected()
    ensures forall s: JobState :: s in {ScanPending, ScanPaused, Scanning, Failed, ScanClean, Promoting, Done} ==>
              !InfectedSide(s)
  {}

  lemma FinishedState(rec: Record, w: WorkerId)
    ensures FinishedClean(rec, w).job.state in {rec.job.state, ScanClean}
  {}

  lemma ReconciledState(rec: Record, canon: Path -> Option<Path>, t: Option<Torrent>, hook: bool)
    requires CleanPass(rec)
    ensures Reconcile(rec, canon, t, hook).0.job.state in {ScanClean, Promoting, Done}
  {}

  // In a step of a run a job gets onto the infected side exactly by an infected answer of the worker in charge.
  lemma InfectedExactly(cfg: Config, xs: seq<World>, es: seq<Event>, i: nat, id: JobId)
    requires cfg.Valid() && IsRun(cfg, xs, es) && i < |es|
    requires id in xs[i].records && !InfectedSide(xs[i].records[id].job.state)
    ensures (id in xs[i + 1].records && InfectedSide(xs[i + 1].records[id].job.state))
       <==> es[i].Answer? && es[i].infected && InCharge(xs[i], es[i].w, id)
  {
    hide Apply, Enabled, RecordInv, HistoryInv, SlotsKept, AnswersFor, HoldsNothing, OtherRowsKept;
    RunsKeepInv(cfg, xs, es, i);
    if es[i].Answer? && es[i].infected && InCharge(xs[i], es[i].w, id) {
      InfectedAnswerIsRecorded(cfg, xs, es, i, es[i].w, es[i].threat);
    } else if id in xs[i + 1].records {
      StepToInfected(cfg, xs[i], es[i], id);
    }
  }

  // On the infected side the threat that was found is kept.
  lemma ThreatStaysForAStep(cfg: Config, x: World, e: Event, id: JobId)
    requires Inv(cfg, x) && Enabled(cfg, x, e) && id in x.records && id in Apply(cfg, x, e).records
    requires InfectedSide(x.records[id].job.state)
    ensures Apply(cfg, x, e).records[id].job.threat == x.records[id].job.threat
  {
    hide BooksAgree, Backed, OwnerAgrees, FolderAgrees, VerdictAgrees, Recovered, NoneInProgress, InfectedSide,
         SchedulerCycle, CanPrepare, CanStart, Reconcile, Prepared, Started, Scanned, WorkerStep, FinishedClean,
         JobStep, JobEnabled, Apply, CandidateOrder;
    AppliedTo(cfg, x, e, id);
    assert RecordInv(cfg, x, id);
    var rec := x.records[id];
    InfectedHoldsNothing(rec);
    match e {
      case Submit(j, job) => assert j != id;
      case OnJob(j, event) => if j == id { JobEventKeepsSides(rec, event); }
      case Recover(now, force) => RecoveredStateMoves(rec, now, force);
      case Schedule(now, order, maintenance, canScan) =>
        ScheduleTouches(x, order, now, maintenance, canScan, cfg.settings, id);
        RecoveredStateMoves(rec, now, false);
        RecoveredKeepsInfected(rec, now, false);
      case OnWorker(w, step) => if x.workers[w].job == id { WithoutLeaseNothingIsRecorded(cfg, x, e, w); }
      case Prepare(w, _, _, _, _) => if x.workers[w].job == id { WithoutLeaseNothingIsRecorded(cfg, x, e, w); }
      case Start(w, _, _, _, _) => if x.workers[w].job == id { WithoutLeaseNothingIsRecorded(cfg, x, e, w); }
      case Answer(w, _, _) => if x.workers[w].job == id { WithoutLeaseNothingIsRecorded(cfg, x, e, w); }
      case FinishClean(w) => if x.workers[w].job == id { WithoutLeaseNothingIsRecorded(cfg, x, e, w); }
      case _ =>
    }
  }

  // A file answered infected for the worker in charge keeps its job off the clean side for good, under the
  // threat of that answer, however the run goes on.
  lemma {:induction false} InfectedAnswerIsForGood(cfg: Config, xs: seq<World>, es: seq<Event>, i: nat, k: nat,
                                                   w: WorkerId, threat: string)
    requires cfg.Valid() && IsRun(cfg, xs, es) && i < k < |xs|
    requires es[i] == Answer(w, true, threat) && HoldsLease(xs[i], w)
    ensures var id := xs[i].workers[w].job;
            id in xs[k].records ==>
              InfectedSide(xs[k].records[id].job.state) && !CleanSide(xs[k].records[id].job.state)
              && xs[k].records[id].job.threat == Some(threat)
  {
    hide Apply, Enabled, RecordInv, HistoryInv, SlotsKept, AnswersFor, HoldsNothing, OtherRowsKept;
    var id := xs[i].workers[w].job;
    InfectedAnswerIsRecorded(cfg, xs, es, i, w, threat);
    if id in xs[k].records {
      InfectedIsNeverPromoted(cfg, xs, es, i + 1, k, id);
      if i + 1 < k {
        StaysKnown(cfg, xs, es, i, k - 1, id);
        InfectedAnswerIsForGood(cfg, xs, es, i, k - 1, w, threat);
        RunsKeepInv(cfg, xs, es, k - 1);
        ThreatStaysForAStep(cfg, xs[k - 1], es[k - 1], id);
      }
    }
  }

  // ---------- the clean verdict ----------

  lemma FinishedExactly(rec: Record, w: WorkerId)
    requires RecordOk(rec) && !CleanSide(rec.job.state)
    ensures CleanSide(FinishedClean(rec, w).job.state)
       <==> Owns(rec, w) && !rec.run.value.pauseRequested && forall row <- rec.run.value.files :: row.status != Pending
    ensures var after := FinishedClean(rec, w);
            CleanSide(after.job.state) ==>
              after.job == rec.job.(state := ScanClean, scanCompleted := true)
              && after.run.Some? && after.run.value.verdict == Some(VerdictClean) && HoldsNothing(after.run.value)
              && after.run.value.files == RunOf(rec).files
  {
    hide BooksAgree, NoneInProgress;
  }

  // In a step of a run a job gets onto the clean side exactly when the worker in charge finishes after its
  // last rebuild, no pause is asked for and no row is pending.
  lemma ClearedExactly(cfg: Config, xs: seq<World>, es: seq<Event>, i: nat, id: JobId)
    requires cfg.Valid() && IsRun(cfg, xs, es) && i < |es|
    requires id in xs[i].records && !CleanSide(xs[i].records[id].job.state)
    ensures (id in xs[i + 1].records && CleanSide(xs[i + 1].records[id].job.state))
       <==> es[i].FinishClean? && InCharge(xs[i], es[i].w, id) && !RunOf(xs[i].records[id]).pauseRequested
            && forall row <- RunOf(xs[i].records[id]).files :: row.status != Pending
    ensures id in xs[i + 1].records && CleanSide(xs[i + 1].records[id].job.state) ==>
              var job, run := xs[i + 1].records[id].job, RunOf(xs[i + 1].records[id]);
              job == xs[i].records[id].job.(state := ScanClean, scanCompleted := true)
              && run.verdict == Some(VerdictClean) && HoldsNothing(run) && run.files == RunOf(xs[i].records[id]).files
  {
    hide RecordOk, FinishedClean, HistoryInv, SlotsKept, Backed, OwnerAgrees, FolderAgrees, Apply, HoldsNothing;
    RunsKeepInv(cfg, xs, es, i);
    assert RecordInv(cfg, xs[i], id);
    var e := es[i];
    if e.FinishClean? && xs[i].workers[e.w].job == id {
      FinishedExactly(xs[i].records[id], e.w);
      FinishIsApplied(cfg, xs[i], e);
    } else if id in xs[i + 1].records && CleanSide(xs[i + 1].records[id].job.state) {
      OnlyFinishCleanClears(cfg, xs[i], e, id);
    }
  }

  lemma FinishIsApplied(cfg: Config, x: World, e: Event)
    requires Enabled(cfg, x, e) && e.FinishClean?
    ensures var y, id := Apply(cfg, x, e), x.workers[e.w].job;
            id in x.records && id in y.records && y.records[id] == FinishedClean(x.records[id], e.w)
  {
    hide FinishedClean;
  }

  // ---------- promotion ----------

  // The canonical form of the destination the job had when it was cleared.
  function ClearedFolder(cfg: Config, x: World, id: JobId): Option<Path> {
    if id in x.cleared then cfg.canon(x.cleared[id]) else None
  }

  predicate HealthyAndPaused(t: Torrent) {
    !t.inErrorState && !t.moving && t.commonOk && t.paused
  }

  predicate AtHome(t: Torrent, folder: Path) {
    HealthyAndPaused(t) && t.savePath == folder && t.destinationOk
  }

  predicate FitToMove(t: Torrent, folder: Path) {
    HealthyAndPaused(t) && t.savePath != folder && t.stagingOk && t.finalStorageOk
  }

  // The job as promoting to this folder, and as done with its torrent there.
  function SetOut(job: Job, folder: Path): Job { job.(finalParent := folder, state := Promoting, terminal := false) }

  function DoneWith(job: Job, t: Torrent, hook: bool): Job {
    job.(finalParent := t.savePath, state := Done, terminal := true, promoted := true,
         contentPath := Some(t.contentPath), hookQueued := hook)
  }

  lemma MarksExactly(rec: Record, canon: Path -> Option<Path>, folder: Path, t: Torrent, hook: bool)
    requires CleanPass(rec) && canon(rec.job.finalParent) == Some(folder)
    ensures Canonicalized(rec, folder) == rec.(job := SetOut(rec.job, folder))
    ensures Begun(rec, canon) == if rec.job.state == ScanClean then rec.(job := SetOut(rec.job, folder)) else rec
    ensures t.savePath == folder ==>
              AtDestination(Canonicalized(rec, folder), t.contentPath, hook) == rec.(job := DoneWith(rec.job, t, hook))
  {}

  lemma ReconciledExactly(rec: Record, canon: Path -> Option<Path>, t: Option<Torrent>, hook: bool, folder: Path)
    requires CleanPass(rec) && canon(rec.job.finalParent) == Some(folder)
    ensures var (after, done) := Reconcile(rec, canon, t, hook);
            (done.Ok? && done.value.LocationSent? <==> t.Some? && FitToMove(t.value, folder))
            && (done.Ok? && done.value.LocationSent? ==>
                  done.value.folder == folder && after == rec.(job := SetOut(rec.job, folder)))
            && if t.Some? && AtHome(t.value, folder) then after == rec.(job := DoneWith(rec.job, t.value, hook))
               else after == rec.(job := SetOut(rec.job, folder)) || (after == rec && rec.job.state == Promoting)
  {
    hide CleanPass, Canonicalized, Begun, AtDestination, SetOut, DoneWith;
    BegunExactly(rec, canon, folder);
    if t.Some? {
      MarksExactly(rec, canon, folder, t.value, hook);
    }
  }

  lemma BegunExactly(rec: Record, canon: Path -> Option<Path>, folder: Path)
    requires CleanPass(rec) && canon(rec.job.finalParent) == Some(folder)
    ensures Begun(rec, canon) == rec.(job := SetOut(rec.job, folder))
            || (rec.job.state == Promoting && Begun(rec, canon) == rec)
  {}

  lemma ReconciledNowhere(rec: Record, canon: Path -> Option<Path>, t: Option<Torrent>, hook: bool)
    requires canon(rec.job.finalParent).None?
    ensures Reconcile(rec, canon, t, hook).0 == rec && Reconcile(rec, canon, t, hook).1.Err?
  {}

  lemma FolderOfCleared(cfg: Config, x: World, id: JobId)
    requires cfg.Valid() && id in x.records && RecordInv(cfg, x, id) && CleanSide(x.records[id].job.state)
    ensures ClearedFolder(cfg, x, id) == cfg.canon(x.records[id].job.finalParent)
  {}

  // Only a promotion pass touches a job on the clean side.
  lemma CleanSideIsLeftAlone(cfg: Config, x: World, e: Event, id: JobId)
    requires Inv(cfg, x) && Enabled(cfg, x, e) && id in x.records && id in Apply(cfg, x, e).records
    requires CleanSide(x.records[id].job.state) && !(e.Promote? && e.id == id)
    ensures Apply(cfg, x, e).records[id].job == x.records[id].job
  {
    hide BooksAgree, Backed, OwnerAgrees, FolderAgrees, VerdictAgrees, Recovered, NoneInProgress,
         SchedulerCycle, CanPrepare, CanStart, Reconcile, Prepared, Started, Scanned, WorkerStep, FinishedClean,
         JobStep, JobEnabled, Apply, CandidateOrder;
    AppliedTo(cfg, x, e, id);
    assert RecordInv(cfg, x, id);
    var rec := x.records[id];
    match e {
      case Submit(j, job) => assert j != id;
      case OnJob(j, event) => if j == id { JobEventKeepsSides(rec, event); }
      case Recover(now, force) => RecoveredStateMoves(rec, now, force);
      case Schedule(now, order, maintenance, canScan) =>
        ScheduleTouches(x, order, now, maintenance, canScan, cfg.settings, id);
        RecoveredStateMoves(rec, now, false);
      case OnWorker(w, step) => if x.workers[w].job == id { WithoutLeaseNothingIsRecorded(cfg, x, e, w); }
      case Prepare(w, _, _, _, _) => if x.workers[w].job == id { WithoutLeaseNothingIsRecorded(cfg, x, e, w); }
      case Start(w, _, _, _, _) => if x.workers[w].job == id { WithoutLeaseNothingIsRecorded(cfg, x, e, w); }
      case Answer(w, _, _) => if x.workers[w].job == id { WithoutLeaseNothingIsRecorded(cfg, x, e, w); }
      case FinishClean(w) => if x.workers[w].job == id { WithoutLeaseNothingIsRecorded(cfg, x, e, w); }
      case _ =>
    }
  }

  lemma PromoteIsApplied(cfg: Config, x: World, e: Event)
    requires Enabled(cfg, x, e) && e.Promote?
    ensures var y, (rec, done) := Apply(cfg, x, e), Reconcile(x.records[e.id], cfg.canon, e.torrent, e.hookAccepts);
            e.id in x.records && CleanPass(x.records[e.id]) && e.id in y.records && y.records[e.id] == rec
            && y.sent == x.sent + if done.Ok? && done.value.LocationSent? then [(e.id, done.value.folder)] else []
  {
    hide Reconcile;
  }

  // What one promotion pass of a run does to its job.
  lemma PassExactly(cfg: Config, xs: seq<World>, es: seq<Event>, i: nat)
    requires cfg.Valid() && IsRun(cfg, xs, es) && i < |es| && es[i].Promote?
    ensures var e, folder := es[i], ClearedFolder(cfg, xs[i], es[i].id);
            e.id in xs[i].records && e.id in xs[i + 1].records && CleanPass(xs[i].records[e.id])
            && var rec, after := xs[i].records[e.id], xs[i + 1].records[e.id];
               xs[i + 1].sent == xs[i].sent + (if folder.Some? && e.torrent.Some?
                                                  && FitToMove(e.torrent.value, folder.value)
                                               then [(e.id, folder.value)] else [])
               && if folder.None? then after == rec
                  else if e.torrent.Some? && AtHome(e.torrent.value, folder.value) then
                    after == rec.(job := DoneWith(rec.job, e.torrent.value, e.hookAccepts))
                  else if e.torrent.Some? && FitToMove(e.torrent.value, folder.value) then
                    after == rec.(job := SetOut(rec.job, folder.value))
                  else after == rec.(job := SetOut(rec.job, folder.value))
                       || (after == rec && rec.job.state == Promoting)
  {
    hide RecordOk, HistoryInv, SlotsKept, Backed, OwnerAgrees, FolderAgrees, Apply, Reconcile, ClearedFolder,
         FitToMove, AtHome, SetOut, DoneWith;
    RunsKeepInv(cfg, xs, es, i);
    var e := es[i];
    assert RecordInv(cfg, xs[i], e.id);
    PromoteIsApplied(cfg, xs[i], e);
    FolderOfCleared(cfg, xs[i], e.id);
    var rec := xs[i].records[e.id];
    if cfg.canon(rec.job.finalParent).Some? {
      ReconciledExactly(rec, cfg.canon, e.torrent, e.hookAccepts, cfg.canon(rec.job.finalParent).value);
    } else {
      ReconciledNowhere(rec, cfg.canon, e.torrent, e.hookAccepts);
    }
  }

  // A job becomes done exactly in a promotion pass that finds its torrent healthy, paused, saved at the
  // canonical cleared folder and accepted there; its content path is then the torrent's.
  lemma DoneExactly(cfg: Config, xs: seq<World>, es: seq<Event>, i: nat, id: JobId)
    requires cfg.Valid() && IsRun(cfg, xs, es) && i < |es|
    requires id in xs[i].records && xs[i].records[id].job.state != Done
    ensures (id in xs[i + 1].records && xs[i + 1].records[id].job.state == Done)
       <==> es[i].Promote? && es[i].id == id && CleanPass(xs[i].records[id])
            && ClearedFolder(cfg, xs[i], id).Some?
            && es[i].torrent.Some? && AtHome(es[i].torrent.value, ClearedFolder(cfg, xs[i], id).value)
    ensures id in xs[i + 1].records && xs[i + 1].records[id].job.state == Done ==>
              xs[i + 1].records[id].job ==
                xs[i].records[id].job.(finalParent := ClearedFolder(cfg, xs[i], id).value, state := Done,
                                       terminal := true, promoted := true,
                                       contentPath := Some(es[i].torrent.value.contentPath),
                                       hookQueued := es[i].hookAccepts)
  {
    hide RecordInv, HistoryInv, SlotsKept, Apply, Reconcile, ClearedFolder, HealthyAndPaused;
    var e := es[i];
    if e.Promote? && e.id == id {
      PassExactly(cfg, xs, es, i);
    } else if id in xs[i + 1].records && xs[i + 1].records[id].job.state == Done {
      RunsKeepInv(cfg, xs, es, i);
      if CleanSide(xs[i].records[id].job.state) {
        CleanSideIsLeftAlone(cfg, xs[i], e, id);
      } else {
        ClearedExactly(cfg, xs, es, i, id);
      }
    }
  }

  lemma OnlyPromotionSends(cfg: Config, x: World, e: Event)
    requires Enabled(cfg, x, e) && !e.Promote?
    ensures Apply(cfg, x, e).sent == x.sent
  {
    hide JobStep, WorkerStep, Prepared, Started, Scanned, FinishedClean, SchedulerCycle, CanPrepare, CanStart;
    if e.Schedule? {
      ScheduleTouches(x, e.order, e.now, e.maintenance, e.canScan, cfg.settings, 0);
    }
  }

  // A folder is sent exactly in a promotion pass that finds the torrent healthy, paused, saved elsewhere and
  // fit to move; it is the canonical cleared folder, and the job is then promoting to it.
  lemma SentExactly(cfg: Config, xs: seq<World>, es: seq<Event>, i: nat)
    requires cfg.Valid() && IsRun(cfg, xs, es) && i < |es|
    ensures var e := es[i];
            if e.Promote? && e.torrent.Some? && ClearedFolder(cfg, xs[i], e.id).Some?
               && FitToMove(e.torrent.value, ClearedFolder(cfg, xs[i], e.id).value) then
              var folder := ClearedFolder(cfg, xs[i], e.id).value;
              xs[i + 1].sent == xs[i].sent + [(e.id, folder)] && e.id in xs[i + 1].records
              && xs[i + 1].records[e.id].job.state == Promoting && xs[i + 1].records[e.id].job.finalParent == folder
            else xs[i + 1].sent == xs[i].sent
  {
    hide Apply, Enabled, ClearedFolder, Reconcile, CleanPass, DoneWith, HealthyAndPaused;
    if es[i].Promote? {
      PassExactly(cfg, xs, es, i);
    } else {
      OnlyPromotionSends(cfg, xs[i], es[i]);
    }
  }

  // ---------- requests ----------

  // An action on an infected job leads to exactly this state.
  predicate ActedAs(step: InfectedStep, rec: Record, after: Record) {
    var state, reserved := rec.job.state, rec.job.quarantinePath.Some?;
    after.run == rec.run
    && if !(state == ScanInfected || state == QuarantiningInfected || state == DeletingInfected) then after == rec
       else match step
         case Hold => after.job == rec.job.(state := InfectedHeld, terminal := true)
         case AllocateQuarantine(folder) =>
           if reserved then after == rec
           else after.job == rec.job.(state := QuarantiningInfected, terminal := false, quarantinePath := Some(folder))
         case ConfirmQuarantine(path) =>
           if !reserved then after == rec
           else after.job == rec.job.(state := InfectedQuarantined, terminal := true, contentPath := Some(path))
         case BeginDelete =>
           if state != ScanInfected then after == rec
           else after.job == rec.job.(state := DeletingInfected, terminal := false)
         case ConfirmDelete =>
           if state == ScanInfected then after == rec
           else after.job == rec.job.(state := InfectedDeleted, terminal := true, deleted := true)
  }

  // What a request or a service step does to a job that is known.
  predicate AnsweredAs(e: JobEvent, rec: Record, after: Record) {
    var run, run', state := RunOf(rec), RunOf(after), rec.job.state;
    match e
    case Enqueue(now) =>
      after.run.Some? && after.job == rec.job.(state := ScanPending, terminal := false) && HoldsNothing(run')
      && !run'.pauseRequested && run'.failureCount == 0 && run'.nextAttemptAt.None? && run'.verdict.None?
      && run'.files == run.files && (run.queuedAt.Some? ==> run'.queuedAt == run.queuedAt)
      && (run.queuedAt.None? ==> run'.queuedAt == Some(now))
    case Pause =>
      if rec.run.Some? && state == ScanPending then
        after == Record(rec.job.(state := ScanPaused), Some(run.(pauseRequested := true)))
      else if rec.run.Some? && state == Scanning then after == rec.(run := Some(run.(pauseRequested := true)))
      else after == rec
    case Resume(now) =>
      if rec.run.Some? && state == ScanPaused then
        after.job == rec.job.(state := ScanPending, terminal := false)
        && after.run == Some(run.(pauseRequested := false, nextAttemptAt := None, queuedAt := Some(now)))
      else after == rec
    case Prioritize(now) =>
      if state == ScanPending || state == Scanning then
        after.job == rec.job && run'.priority >= 100 && run'.priority >= run.priority
        && (run'.priority == 100 || run'.priority == run.priority)
        && after.run == Some(run.(priority := run'.priority, queuedAt := Some(now)))
      else after == rec
    case ActOnInfection(step) => ActedAs(step, rec, after)
    case Edit(expected, folder) =>
      after == rec || (rec.job.finalParent == expected && after == rec.(job := rec.job.(finalParent := folder)))
    case Move(job) => after == rec.(job := job)
    case Retry(_, _) => state != Failed ==> after == rec
  }

  lemma OnlyDeleteRemoves(cfg: Config, x: World, e: Event, id: JobId)
    requires Enabled(cfg, x, e) && id in x.records && id !in Apply(cfg, x, e).records
    ensures e == Delete(id)
  {
    hide JobStep, WorkerStep, Prepared, Started, Scanned, FinishedClean, SchedulerCycle, CanPrepare, CanStart,
         Recovered, Reconcile;
    if e.Schedule? {
      ScheduleTouches(x, e.order, e.now, e.maintenance, e.canScan, cfg.settings, id);
    }
  }

  lemma StepIsAnswer(rec: Record, e: JobEvent)
    ensures AnsweredAs(e, rec, JobStep(rec, e))
  {
    hide PreparedForRetry, Reattached, Editable;
  }

  // Each request of a run does exactly this to its job, and nothing where its state does not allow it.
  lemma RequestIsAnswered(cfg: Config, xs: seq<World>, es: seq<Event>, i: nat, id: JobId, e: JobEvent)
    requires cfg.Valid() && IsRun(cfg, xs, es) && i < |es| && es[i] == OnJob(id, e)
    ensures id in xs[i].records && id in xs[i + 1].records && AnsweredAs(e, xs[i].records[id], xs[i + 1].records[id])
  {
    hide Apply, AnsweredAs, JobStep;
    StepIsAnswer(xs[i].records[id], e);
    if id !in xs[i + 1].records { OnlyDeleteRemoves(cfg, xs[i], es[i], id); }
    AppliedTo(cfg, xs[i], es[i], id);
  }

  // In a run the destination can be edited exactly while the job downloads without having a scan or being complete,
  // or while its scan is paused; nothing else that is checked can be otherwise then.
  predicate MayEdit(rec: Record, expected: Path) {
    var job := rec.job;
    job.finalParent == expected && job.threat.None? && job.quarantinePath.None? && !job.hookQueued
    && (job.state == ScanPaused
        || (job.state in {Downloading, WaitingForLocalSpace, WaitingForNas, WaitingForQbtHash} && rec.run.None?
            && !job.completionEvent && !job.downloadComplete))
  }

  lemma EditedExactly(rec: Record, expected: Path, folder: Path)
    requires RecordOk(rec)
    ensures Edited(rec, expected, folder)
         == if MayEdit(rec, expected) then rec.(job := rec.job.(finalParent := folder)) else rec
  {
    hide BooksAgree, NoneInProgress;
  }

  lemma EditIsAnswered(cfg: Config, xs: seq<World>, es: seq<Event>, i: nat, id: JobId, expected: Path, folder: Path)
    requires cfg.Valid() && IsRun(cfg, xs, es) && i < |es| && es[i] == OnJob(id, Edit(expected, folder))
    ensures id in xs[i].records && id in xs[i + 1].records
    ensures var rec, after := xs[i].records[id], xs[i + 1].records[id];
            after == if MayEdit(rec, expected) then rec.(job := rec.job.(finalParent := folder)) else rec
  {
    hide RecordOk, Edited, HistoryInv, SlotsKept, Backed, OwnerAgrees, FolderAgrees, MayEdit;
    RunsKeepInv(cfg, xs, es, i);
    assert RecordInv(cfg, xs[i], id);
    EditedExactly(xs[i].records[id], expected, folder);
  }

  // What a retry makes of a failed job: nothing of its earlier download or scan counts any more.
  predicate RetriedAs(o: RetryOutcome, rec: Record, after: Record, now: Time) {
    var bare := rec.job.(terminal := false, downloadComplete := false, completionEvent := false, contentPath := None,
                         scanCompleted := false, threat := None);
    match o
    case RetryFailed => after == rec.(job := bare.(state := Failed, terminal := true))
    case HeldBack(s) => after == rec.(job := bare.(state := s))
    case Readded(s) => after == rec.(job := bare.(state := s))
    case Attached(complete, contentPath) =>
      if complete then
        after.job == bare.(state := ScanPending, downloadComplete := true, contentPath := contentPath)
        && after.run.Some? && HoldsNothing(after.run.value) && after.run.value.failureCount == 0
        && !after.run.value.pauseRequested && after.run.value.nextAttemptAt.None? && after.run.value.verdict.None?
        && after.run.value.files == RunOf(rec).files && after.run.value.queuedAt.Some?
      else after == rec.(job := bare.(state := Downloading, contentPath := contentPath))
  }

  lemma RetriedExactly(rec: Record, o: RetryOutcome, now: Time)
    requires RecordOk(rec) && rec.job.state == Failed
    ensures RetriedAs(o, rec, Retried(rec, o, now), now)
  {
    hide BooksAgree, NoneInProgress;
  }

  lemma RetryIsAnswered(cfg: Config, xs: seq<World>, es: seq<Event>, i: nat, id: JobId, o: RetryOutcome, now: Time)
    requires cfg.Valid() && IsRun(cfg, xs, es) && i < |es| && es[i] == OnJob(id, Retry(o, now))
    requires id in xs[i].records && xs[i].records[id].job.state == Failed
    ensures id in xs[i + 1].records && RetriedAs(o, xs[i].records[id], xs[i + 1].records[id], now)
  {
    hide RecordOk, Retried, HistoryInv, SlotsKept, Backed, OwnerAgrees, FolderAgrees, RetriedAs;
    RunsKeepInv(cfg, xs, es, i);
    assert RecordInv(cfg, xs[i], id);
    RetriedExactly(xs[i].records[id], o, now);
  }

  // ---------- other endings of a scan ----------

  function TwoTo(n: nat): nat { if n == 0 then 1 else 2 * TwoTo(n - 1) }

  lemma {:induction false} BackoffIsPower(base: int, n: nat)
    ensures Backoff(base, n) == base * TwoTo(n)
  {
    if n > 0 {
      BackoffIsPower(base, n - 1);
      var power := TwoTo(n - 1);
      assert 2 * (base * power) == base * (2 * power);
    }
  }

  // The run without its holder.
  function Freed(run: Run): Run {
    run.(worker := None, leaseExpiresAt := None, heartbeatAt := None, currentFile := None)
  }

  // What a worker in charge leaves behind when it stops without an answer.
  predicate EndsAs(e: WorkerEvent, rec: Record, after: Record, cfg: Settings)
    requires rec.run.Some?
  {
    var run := rec.run.value;
    after.run.Some? &&
    var run' := after.run.value;
    var handedBack := Freed(run).(files := run'.files);
    var rest := rec.job.(state := if run.pauseRequested then ScanPaused else ScanPending);
    match e
    case Heartbeat(now) =>
      after.job == rec.job && run' == run.(heartbeatAt := Some(now), leaseExpiresAt := run'.leaseExpiresAt)
    case PauseHere =>
      if run.pauseRequested then after == Record(rec.job.(state := ScanPaused), Some(Freed(run))) else after == rec
    case Yield(now) =>
      if run.pauseRequested then after == rec
      else after == Record(rec.job.(state := ScanPending), Some(Freed(run).(queuedAt := Some(now))))
    case Interrupt(now) =>
      after.job == rest && run' == handedBack.(queuedAt := Some(now)) && HandedBack(run.files, run'.files, Pending)
    case Defer(now, seconds) =>
      var wait := if seconds == 0 then None else if seconds < 0 then Some(now) else Some(now + seconds);
      after.job == rest && run' == handedBack.(queuedAt := Some(now), nextAttemptAt := wait)
      && HandedBack(run.files, run'.files, Pending)
    case FailAttempt(now) =>
      var failed := handedBack.(failureCount := run.failureCount + 1);
      var wait := Max(cfg.retryBaseSeconds, 1) * TwoTo(run.failureCount);
      HandedBack(run.files, run'.files, Pending)
      && if run.failureCount + 1 >= cfg.maxFailures then
           after.job == rec.job.(state := Failed, terminal := true) && run' == failed
         else after.job == rec.job.(state := ScanPending)
              && run' == failed.(queuedAt := Some(now), nextAttemptAt := Some(now + wait))
    case Refuse =>
      after.job == rec.job.(state := Failed, terminal := true) && HandedBack(run.files, run'.files, Refused)
      && run' == handedBack.(verdict := Some(VerdictError), nextAttemptAt := None)
  }

  lemma ReleasedAs(files: seq<FileRow>)
    ensures HandedBack(files, Release(files, Pending), Pending)
    ensures HandedBack(files, Release(files, Refused), Refused)
  {}

  lemma FailEndsAs(rec: Record, w: WorkerId, now: Time, cfg: Settings)
    requires Owns(rec, w) && !rec.job.terminal
    ensures EndsAs(FailAttempt(now), rec, AttemptFailed(rec, w, now, cfg), cfg)
  {
    hide Backoff, Release, HandedBack, TwoTo;
    ReleasedAs(rec.run.value.files);
    BackoffIsPower(Max(cfg.retryBaseSeconds, 1), rec.run.value.failureCount);
  }

  lemma RefuseEndsAs(rec: Record, w: WorkerId, cfg: Settings)
    requires Owns(rec, w)
    ensures EndsAs(Refuse, rec, PolicyRefused(rec, w), cfg)
  {
    hide Release, HandedBack;
    ReleasedAs(rec.run.value.files);
  }

  lemma HandBackEndsAs(rec: Record, w: WorkerId, now: Time, seconds: int, cfg: Settings)
    requires Owns(rec, w) && !rec.job.terminal
    ensures EndsAs(Interrupt(now), rec, Interrupted(rec, w, now), cfg)
    ensures EndsAs(Defer(now, seconds), rec, Deferred(rec, w, now, seconds), cfg)
  {
    hide Release, HandedBack;
    ReleasedAs(rec.run.value.files);
  }

  lemma CheckpointEndsAs(rec: Record, w: WorkerId, now: Time, cfg: Settings)
    requires Owns(rec, w)
    ensures EndsAs(Heartbeat(now), rec, Beaten(rec, w, now, cfg), cfg)
    ensures EndsAs(PauseHere, rec, PausedAtCheckpoint(rec, w), cfg)
    ensures rec.run.value.currentFile.None? ==> EndsAs(Yield(now), rec, Yielded(rec, w, now), cfg)
  {}

  lemma WorkerEndsAs(rec: Record, w: WorkerId, e: WorkerEvent, cfg: Settings)
    requires Owns(rec, w) && RecordOk(rec)
    requires e.Yield? ==> rec.run.value.currentFile.None?
    ensures EndsAs(e, rec, WorkerStep(rec, w, e, cfg), cfg)
  {
    OwnerScans(rec, w);
    assert !rec.job.terminal;
    hide RecordOk, EndsAs, AttemptFailed, PolicyRefused, Interrupted, Deferred, Beaten, PausedAtCheckpoint, Yielded;
    match e {
      case Heartbeat(now) => CheckpointEndsAs(rec, w, now, cfg);
      case PauseHere => CheckpointEndsAs(rec, w, 0, cfg);
      case Yield(now) => CheckpointEndsAs(rec, w, now, cfg);
      case Interrupt(now) => HandBackEndsAs(rec, w, now, 0, cfg);
      case Defer(now, seconds) => HandBackEndsAs(rec, w, now, seconds, cfg);
      case FailAttempt(now) => FailEndsAs(rec, w, now, cfg);
      case Refuse => RefuseEndsAs(rec, w, cfg);
    }
  }

  // Each way to stop a scan, by the worker in charge, leaves exactly this.  A policy refusal ends the job with
  // an error verdict and refused rows; failed attempts wait twice as long each time, and the last one ends it.
  lemma EndingIsRecorded(cfg: Config, xs: seq<World>, es: seq<Event>, i: nat, w: WorkerId, step: WorkerEvent)
    requires cfg.Valid() && IsRun(cfg, xs, es) && i < |es| && es[i] == OnWorker(w, step) && HoldsLease(xs[i], w)
    ensures var id := xs[i].workers[w].job;
            id in xs[i + 1].records && OfWorker(xs[i], w).run.Some?
            && EndsAs(step, OfWorker(xs[i], w), xs[i + 1].records[id], cfg.settings)
  {
    ChargeFacts(cfg, xs, es, i, w);
    assert WorkerEnabled(xs[i].workers[w].phase, step);
    hide RecordOk, WorkerStep, EndsAs, NoneInProgress;
    WorkerEndsAs(OfWorker(xs[i], w), w, step, cfg.settings);
  }

  // The download phase fails, a policy refuses the scan, or an attempt fails that is the last one allowed.
  predicate Fails(cfg: Config, x: World, e: Event, id: JobId)
    requires id in x.records
  {
    (e.OnJob? && e.id == id && e.event.Move? && e.event.job.state == Failed)
    || (e.OnWorker? && InCharge(x, e.w, id)
        && (e.step.Refuse?
            || (e.step.FailAttempt? && RunOf(x.records[id]).failureCount + 1 >= cfg.settings.maxFailures)))
  }

  lemma JobEventFails(rec: Record, e: JobEvent)
    requires rec.job.state != Failed
    ensures JobStep(rec, e).job.state == Failed <==> e.Move? && e.job.state == Failed
  {
    StepIsAnswer(rec, e);
    hide InfectedActed, Queued, Retried, Edited, PauseAsked, Resumed, Prioritized, ActedAs, HoldsNothing;
    match e {
      case ActOnInfection(step) => ActionDoesNotFail(rec, step);
      case _ =>
    }
  }

  lemma ActionDoesNotFail(rec: Record, step: InfectedStep)
    requires rec.job.state != Failed
    ensures InfectedActed(rec, step).job.state != Failed
  {
    match step {
      case Hold =>
      case AllocateQuarantine(_) =>
      case ConfirmQuarantine(_) =>
      case BeginDelete =>
      case ConfirmDelete =>
    }
  }

  lemma ScanStepsDoNotFail(cfg: Config, x: World, e: Event, id: JobId)
    requires (e.Prepare? || e.Start? || e.Answer? || e.FinishClean?) && e.w in x.workers && x.workers[e.w].job == id
    requires Inv(cfg, x) && Enabled(cfg, x, e) && id in x.records && x.records[id].job.state != Failed
    ensures RecordAfter(cfg, x, e, id).job.state != Failed
  {
    hide RecordInv, HistoryInv, SlotsKept, Prepared, Started, FinishedClean, Scanned, CanPrepare, CanStart;
    var rec := x.records[id];
    match e {
      case Prepare(w, root, manifest, identity, last) => PreparedKeepsJob(rec, w, root, manifest, identity);
      case Start(w, i, stamp, identity, now) => StartedKeepsJob(rec, w, i, stamp, identity, now, cfg.settings);
      case Answer(w, infected, threat) =>
        ScannedKeepsCleanSide(rec, w, x.workers[w].phase.index, infected, threat, x.workers[w].phase.identity);
      case FinishClean(w) => FinishedState(rec, w);
    }
  }

  // Nothing else fails a job.
  lemma OthersDoNotFail(cfg: Config, x: World, e: Event, id: JobId)
    requires Inv(cfg, x) && Enabled(cfg, x, e) && id in x.records && id in Apply(cfg, x, e).records
    requires x.records[id].job.state != Failed
    requires !(e.OnJob? && e.id == id) && !(e.OnWorker? && x.workers[e.w].job == id)
    ensures Apply(cfg, x, e).records[id].job.state != Failed
  {
    hide RecordInv, SlotsKept, JobStep, WorkerStep, Recovered, Prepared, Started, JobEnabled,
         FinishedClean, SchedulerCycle, CanPrepare, CanStart, Reconcile, Apply, CandidateOrder, Fresh, Scanned;
    AppliedTo(cfg, x, e, id);
    var rec := x.records[id];
    if e.Submit? {
      assert e.id != id;
    } else if e.Recover? {
      RecoveredStateMoves(rec, e.now, e.force);
    } else if e.Schedule? {
      ScheduleTouches(x, e.order, e.now, e.maintenance, e.canScan, cfg.settings, id);
      RecoveredStateMoves(rec, e.now, false);
    } else if e.Promote? {
      if e.id == id { ReconciledState(rec, cfg.canon, e.torrent, e.hookAccepts); }
    } else if (e.Prepare? || e.Start? || e.Answer? || e.FinishClean?) && x.workers[e.w].job == id {
      ScanStepsDoNotFail(cfg, x, e, id);
    }
  }

  lemma StepToFailed(cfg: Config, x: World, e: Event, id: JobId)
    requires Inv(cfg, x) && Enabled(cfg, x, e) && id in x.records && id in Apply(cfg, x, e).records
    requires x.records[id].job.state != Failed
    ensures Apply(cfg, x, e).records[id].job.state == Failed <==> Fails(cfg, x, e, id)
  {
    hide RecordOk, Backed, OwnerAgrees, FolderAgrees, JobStep, WorkerStep, Apply, JobEnabled;
    assert RecordInv(cfg, x, id);
    if e.OnJob? && e.id == id {
      AppliedTo(cfg, x, e, id);
      JobEventFails(x.records[id], e.event);
    } else if e.OnWorker? && x.workers[e.w].job == id {
      AppliedTo(cfg, x, e, id);
      WorkerStateMoves(x.records[id], e.w, e.step, cfg.settings);
    } else {
      OthersDoNotFail(cfg, x, e, id);
    }
  }

  // In a step of a run a job fails exactly by a failed download phase, a policy refusal, or a failed attempt
  // that is the last one allowed.
  lemma FailedExactly(cfg: Config, xs: seq<World>, es: seq<Event>, i: nat, id: JobId)
    requires cfg.Valid() && IsRun(cfg, xs, es) && i < |es|
    requires id in xs[i].records && xs[i].records[id].job.state != Failed
    ensures (id in xs[i + 1].records && xs[i + 1].records[id].job.state == Failed) <==> Fails(cfg, xs[i], es[i], id)
  {
    hide RecordInv, HistoryInv, SlotsKept, Apply, Enabled, HoldsLease;
    RunsKeepInv(cfg, xs, es, i);
    if id in xs[i + 1].records {
      StepToFailed(cfg, xs[i], es[i], id);
    } else {
      OnlyDeleteRemoves(cfg, xs[i], es[i], id);
    }
  }
}
