// The service steps around a scan: destination edits, promotion, infected actions and retries.
module Promotion {
  import opened Options
  import opened ScanModel

  // What one look at qBittorrent reports about a job's torrent.  The guard checks are answers
  // of the environment, because they read tags and the mounted file systems.
  datatype Torrent = Torrent(
    inErrorState: bool, moving: bool, paused: bool, savePath: Path, contentPath: Path,
    commonOk: bool, stagingOk: bool, finalStorageOk: bool, destinationOk: bool)

  datatype Failure =
    | BadDestination | TorrentMissing | TorrentInErrorState | NotOurs | NotInStaging | StorageOffline | NotAtDestination

  // What one reconciliation did besides changing the row.
  datatype Outcome = Waiting | PauseSent | LocationSent(folder: Path) | Promoted

  // ---------- destination edits ----------

  predicate Editable(rec: Record) {
    var job := rec.job;
    !job.terminal && !job.scanCompleted && !job.promoted && !job.deleted
    && job.threat.None? && job.quarantinePath.None? && !job.hookQueued
    && if job.state.Downloading? || job.state.WaitingForLocalSpace? || job.state.WaitingForNas?
          || job.state.WaitingForQbtHash? then
         rec.run.None? && !job.completionEvent && !job.downloadComplete
       else
         job.state == ScanPaused && rec.run.Some?
         && var run := rec.run.value;
            run.pauseRequested && run.worker.None? && run.leaseExpiresAt.None? && run.heartbeatAt.None?
            && run.currentFile.None? && run.verdict.None?
  }

  function Edited(rec: Record, expected: Path, destination: Path): Record {
    if rec.job.finalParent == expected && Editable(rec)
    then rec.(job := rec.job.(finalParent := destination)) else rec
  }

  // ---------- clean promotion ----------

  function Canonicalized(rec: Record, folder: Path): Record {
    rec.(job := rec.job.(finalParent := folder, state := Promoting, terminal := false))
  }

  // A cleared job is marked before qBittorrent is asked anything.
  function Begun(rec: Record, canon: Path -> Option<Path>): Record {
    match canon(rec.job.finalParent)
    case None => rec
    case Some(folder) => if rec.job.state == ScanClean then Canonicalized(rec, folder) else rec
  }

  function AtDestination(rec: Record, contentPath: Path, hookAccepts: bool): Record {
    rec.(job := rec.job.(state := Done, terminal := true, promoted := true, contentPath := Some(contentPath),
                         hookQueued := hookAccepts))
  }

  lemma BegunThenMarked(rec: Record, canon: Path -> Option<Path>, folder: Path)
    requires canon(rec.job.finalParent) == Some(folder)
    ensures Canonicalized(Begun(rec, canon), folder) == Canonicalized(rec, folder)
  {}

  // One pass of the promotion reconciler over a job in "scan_clean" or "promoting".
  // The row returned with an Err is what the rolled-back session leaves committed.
  function Reconcile(rec: Record, canon: Path -> Option<Path>, torrent: Option<Torrent>, hookAccepts: bool)
    : (r: (Record, Result<Outcome, Failure>))
  {
    match canon(rec.job.finalParent)
    case None => (rec, Err(BadDestination))
    case Some(folder) =>
      var begun := Begun(rec, canon);
      match torrent
      case None => (begun, Err(TorrentMissing))
      case Some(t) =>
        if t.inErrorState then (begun, Err(TorrentInErrorState))
        else if t.moving then (Canonicalized(rec, folder), Ok(Waiting))
        else if !t.commonOk then (begun, Err(NotOurs))
        else if !t.paused then (begun, Ok(PauseSent))
        else if t.savePath != folder then
          if !t.stagingOk then (begun, Err(NotInStaging))
          else if !t.finalStorageOk then (begun, Err(StorageOffline))
          else (Canonicalized(rec, folder), Ok(LocationSent(folder)))
        else if !t.destinationOk then (begun, Err(NotAtDestination))
        else (AtDestination(Canonicalized(rec, folder), t.contentPath, hookAccepts), Ok(Promoted))
  }

  // ---------- infected actions ----------

  predicate AwaitsInfectedAction(rec: Record) {
    (rec.job.state.ScanInfected? || rec.job.state.QuarantiningInfected? || rec.job.state.DeletingInfected?)
  }

  datatype InfectedStep =
    | Hold | AllocateQuarantine(folder: Path) | ConfirmQuarantine(contentPath: Path) | BeginDelete | ConfirmDelete

  function InfectedActed(rec: Record, step: InfectedStep): Record {
    if !AwaitsInfectedAction(rec) then rec
    else match step
      case Hold => rec.(job := rec.job.(state := InfectedHeld, terminal := true))
      case AllocateQuarantine(folder) =>
        if rec.job.quarantinePath.Some? then rec
        else rec.(job := rec.job.(state := QuarantiningInfected, terminal := false, quarantinePath := Some(folder)))
      case ConfirmQuarantine(contentPath) =>
        if rec.job.quarantinePath.None? then rec
        else rec.(job := rec.job.(state := InfectedQuarantined, terminal := true, contentPath := Some(contentPath)))
      case BeginDelete =>
        if rec.job.state != ScanInfected then rec
        else rec.(job := rec.job.(state := DeletingInfected, terminal := false))
      case ConfirmDelete =>
        if rec.job.state == ScanInfected then rec
        else rec.(job := rec.job.(state := InfectedDeleted, terminal := true, deleted := true))
  }

  // ---------- retries ----------

  function PreparedForRetry(job: Job): Job {
    job.(terminal := false, state := Retrying,
         downloadComplete := job.scanCompleted && job.downloadComplete,
         completionEvent := job.scanCompleted && job.completionEvent,
         contentPath := if job.scanCompleted then job.contentPath else None,
         scanCompleted := job.promoted && job.scanCompleted,
         threat := if job.deleted then job.threat else None)
  }

  function StateForRetry(job: Job, torrentComplete: bool): JobState {
    if job.deleted then InfectedDeleted
    else if job.promoted then Done
    else if job.scanCompleted then Promoting
    else if torrentComplete then DownloadComplete
    else Downloading
  }

  datatype RetryOutcome =
    | Attached(torrentComplete: bool, contentPath: Option<Path>)  // found in qBittorrent
    | HeldBack(state: JobState)                                   // waits for local space or its NAS
    | Readded(state: JobState)                                    // added again
    | RetryFailed

  predicate RetryOutcomePossible(o: RetryOutcome) {
    match o
    case HeldBack(s) => s == WaitingForLocalSpace || s == WaitingForNas
    case Readded(s) => (s.Downloading? || s.WaitingForQbtHash? || s.WaitingForLocalSpace? || s.WaitingForNas?)
    case _ => true
  }

  // The job is attached to a torrent qBittorrent still has.
  function Reattached(rec: Record, torrentComplete: bool, contentPath: Option<Path>, now: Time): Record {
    var job := PreparedForRetry(rec.job);
    var next := StateForRetry(job, torrentComplete);
    var back := rec.(job := job.(state := next,
                                 downloadComplete := job.downloadComplete || next == DownloadComplete,
                                 contentPath := if contentPath.Some? then contentPath else job.contentPath));
    if next == DownloadComplete then Queued(back, now) else back
  }

  function Retried(rec: Record, o: RetryOutcome, now: Time): Record {
    if rec.job.state != Failed then rec
    else match o
      case RetryFailed => rec.(job := PreparedForRetry(rec.job).(state := Failed, terminal := true))
      case HeldBack(s) => rec.(job := PreparedForRetry(rec.job).(state := s))
      case Readded(s) => rec.(job := PreparedForRetry(rec.job).(state := s))
      case Attached(complete, contentPath) => Reattached(rec, complete, contentPath, now)
  }

  // ---------- moves before the scan ----------

  // Any move of the download phase: submission, staging moves, completion hints and failures.
  predicate Advanced(job: Job, next: Job) {
    BeforeScan(job.state) && (BeforeScan(next.state) || next.state == Failed)
    && next.terminal == TerminalState(next.state)
    && (job.downloadComplete ==> next.downloadComplete)
    && next == job.(state := next.state, terminal := next.terminal, contentPath := next.contentPath,
                    sizeBytes := next.sizeBytes, completionEvent := next.completionEvent,
                    downloadComplete := next.downloadComplete)
  }

  predicate ReadyToQueue(job: Job) {
    job.downloadComplete
    && (job.state.DownloadComplete? || job.state.CompletionEventReceived? || job.state.Downloading?)
  }
}
