// The durable rows of the scan queue and what each committed step does to them.
// A step whose ownership check fails leaves its record as it is.
module ScanModel {
  import opened Options

  type JobId = nat
  type WorkerId = nat
  type Time = int
  type Path = seq<string>

  datatype Fingerprint = Fingerprint(size: nat, mtime: int, ctime: int, device: int, inode: int)

  // The engine and policy a verdict depends on.
  datatype Identity = Identity(engine: string, policy: string)

  // "pending", "scanning", "clean", "infected" and "error" rows.
  datatype FileStatus = Pending | InProgress | Clean | Infected | Refused

  datatype FileRow = FileRow(path: string, stamp: Fingerprint, status: FileStatus,
                             attempts: nat, scannedBy: Option<Identity>)

  datatype ManifestEntry = ManifestEntry(path: string, stamp: Fingerprint)

  datatype Verdict = VerdictClean | VerdictInfected | VerdictError

  datatype Run = Run(
    priority: int, pauseRequested: bool, attempts: nat, failureCount: nat,
    queuedAt: Option<Time>, nextAttemptAt: Option<Time>,
    worker: Option<WorkerId>, leaseExpiresAt: Option<Time>, heartbeatAt: Option<Time>,
    rootPath: Option<Path>, identity: Option<Identity>,
    totalFiles: int, completedFiles: int, totalBytes: int, completedBytes: int,
    currentFile: Option<string>, verdict: Option<Verdict>, files: seq<FileRow>)

  const NewRun := Run(0, false, 0, 0, None, None, None, None, None, None, None, 0, 0, 0, 0, None, None, [])

  // `Failed` is the state the program calls "error".
  datatype JobState =
    | AddingToQbt | WaitingForQbtHash | Downloading | WaitingForLocalSpace | WaitingForNas
    | CompletionEventReceived | DownloadComplete | Retrying
    | ScanPending | Scanning | ScanPaused
    | ScanClean | Promoting | ScanInfected | QuarantiningInfected | DeletingInfected
    | Done | InfectedHeld | InfectedQuarantined | InfectedDeleted | Failed

  // Timestamps that later steps only test for presence are booleans.
  datatype Job = Job(
    state: JobState, terminal: bool, finalParent: Path, contentPath: Option<Path>, sizeBytes: Option<nat>,
    completionEvent: bool, downloadComplete: bool, scanCompleted: bool, promoted: bool, deleted: bool,
    threat: Option<string>, quarantinePath: Option<Path>, hookQueued: bool)

  datatype Record = Record(job: Job, run: Option<Run>)

  datatype Settings = Settings(
    maxScanSlots: int, maxConcurrentScans: int, maxLargeScans: int, largeScanBytes: int,
    leaseSeconds: int, heartbeatSeconds: int, maxFailures: int, retryBaseSeconds: int)
  {
    function HardMaxSlots(): int { Max(maxScanSlots, 1) }
    function DefaultSlots(): int { Min(Max(maxConcurrentScans, 1), HardMaxSlots()) }
    function MaxLarge(): int { Min(Max(maxLargeScans, 1), HardMaxSlots()) }
    function Lease(): int { Max(Max(leaseSeconds, heartbeatSeconds * 3), 30) }
  }

  function Max(a: int, b: int): int { if a < b then b else a }
  function Min(a: int, b: int): int { if b < a then b else a }

  // The retry delay doubles with every failure.
  function Backoff(base: int, failures: nat): int {
    if failures == 0 then base else 2 * Backoff(base, failures - 1)
  }

  predicate BeforeScan(s: JobState) {
    s.AddingToQbt? || s.WaitingForQbtHash? || s.Downloading? || s.WaitingForLocalSpace? || s.WaitingForNas?
    || s.CompletionEventReceived? || s.DownloadComplete? || s.Retrying?
  }

  predicate CleanSide(s: JobState) { (s.ScanClean? || s.Promoting? || s.Done?) }

  predicate InfectedSide(s: JobState) {
    s.ScanInfected? || s.QuarantiningInfected? || s.DeletingInfected?
    || s.InfectedHeld? || s.InfectedQuarantined? || s.InfectedDeleted?
  }

  predicate QueueState(s: JobState) { (s.ScanPending? || s.Scanning? || s.ScanPaused?) }

  predicate ActionState(s: JobState) {
    (s.ScanClean? || s.Promoting? || s.ScanInfected? || s.QuarantiningInfected? || s.DeletingInfected?)
  }

  predicate TerminalState(s: JobState) {
    (s.Done? || s.InfectedHeld? || s.InfectedQuarantined? || s.InfectedDeleted? || s.Failed?)
  }

  // ---------- file rows ----------

  predicate Completed(row: FileRow) { row.status == Clean || row.status == Infected }

  function TotalBytes(files: seq<FileRow>): nat {
    if files == [] then 0 else files[0].stamp.size + TotalBytes(files[1..])
  }

  function CompletedBytes(files: seq<FileRow>): nat {
    if files == [] then 0
    else (if Completed(files[0]) then files[0].stamp.size else 0) + CompletedBytes(files[1..])
  }

  function CompletedFiles(files: seq<FileRow>): nat {
    if files == [] then 0 else (if Completed(files[0]) then 1 else 0) + CompletedFiles(files[1..])
  }

  function CleanFiles(files: seq<FileRow>): nat {
    if files == [] then 0 else (if files[0].status == Clean then 1 else 0) + CleanFiles(files[1..])
  }

  function CleanBytes(files: seq<FileRow>): nat {
    if files == [] then 0
    else (if files[0].status == Clean then files[0].stamp.size else 0) + CleanBytes(files[1..])
  }

  predicate DistinctPaths(files: seq<FileRow>) {
    forall i, j :: 0 <= i < j < |files| ==> files[i].path != files[j].path
  }

  predicate DistinctEntries(manifest: seq<ManifestEntry>) {
    forall i, j :: 0 <= i < j < |manifest| ==> manifest[i].path != manifest[j].path
  }

  function ReleasedRow(row: FileRow, status: FileStatus): FileRow {
    if row.status == InProgress then row.(status := status) else row
  }

  // The update of every row whose status is "scanning".
  function Release(files: seq<FileRow>, status: FileStatus): seq<FileRow> {
    seq(|files|, i requires 0 <= i < |files| => ReleasedRow(files[i], status))
  }

  // The row with this path, if any.
  function Lookup(files: seq<FileRow>, path: string): (r: Option<FileRow>)
    ensures r.Some? ==> r.value in files && r.value.path == path
    ensures r.None? ==> forall row <- files :: row.path != path
  {
    if files == [] then None
    else if files[0].path == path then Some(files[0])
    else Lookup(files[1..], path)
  }

  predicate Reusable(row: FileRow, stamp: Fingerprint, versionChanged: bool) {
    row.stamp == stamp && !versionChanged && (row.status == Pending || row.status == Clean)
  }

  // The row a rebuilt manifest leaves for one entry.
  function Reconciled(known: Option<FileRow>, e: ManifestEntry, versionChanged: bool): FileRow {
    match known
    case None => FileRow(e.path, e.stamp, Pending, 0, None)
    case Some(row) =>
      if Reusable(row, e.stamp, versionChanged) then row
      else row.(stamp := e.stamp, status := Pending, scannedBy := None)
  }

  function Rebuild(files: seq<FileRow>, manifest: seq<ManifestEntry>, versionChanged: bool): (r: seq<FileRow>)
  {
    seq(|manifest|, i requires 0 <= i < |manifest| =>
      Reconciled(Lookup(files, manifest[i].path), manifest[i], versionChanged))
  }

  predicate RowsMatch(files: seq<FileRow>, manifest: seq<ManifestEntry>) {
    |files| == |manifest| &&
    forall i :: 0 <= i < |files| ==> files[i].path == manifest[i].path && files[i].stamp == manifest[i].stamp
  }

  predicate NoneInProgress(files: seq<FileRow>) {
    forall row <- files :: row.status != InProgress
  }

  predicate NonePending(files: seq<FileRow>) {
    forall row <- files :: row.status != Pending
  }

  // ---------- committed steps on one record ----------

  predicate Owns(rec: Record, w: WorkerId) {
    rec.run.Some? && rec.run.value.worker == Some(w)
  }

  function ReleaseLease(run: Run): Run {
    run.(worker := None, leaseExpiresAt := None, heartbeatAt := None)
  }

  function RunOf(rec: Record): Run {
    match rec.run case Some(run) => run case None => NewRun
  }

  function Queued(rec: Record, now: Time): Record {
    var run := RunOf(rec);
    Record(rec.job.(state := ScanPending, terminal := false),
           Some(ReleaseLease(run).(pauseRequested := false, failureCount := 0, nextAttemptAt := None,
                                   queuedAt := if run.queuedAt.Some? then run.queuedAt else Some(now),
                                   currentFile := None, verdict := None)))
  }

  // Where an interrupted scan goes back to.
  function Resting(run: Run): JobState {
    if run.pauseRequested then ScanPaused else ScanPending
  }

  // The job goes back to rest and every row the worker had in progress is pending again.
  function Rested(job: Job, run: Run, now: Time): Record {
    Record(job.(state := Resting(run)),
           Some(ReleaseLease(run).(queuedAt := Some(now), currentFile := None,
                                   files := Release(run.files, Pending))))
  }

  predicate LeaseLost(run: Run, now: Time, force: bool) {
    force || run.worker.None? || run.leaseExpiresAt.None? || run.leaseExpiresAt.value <= now
  }

  function Recovered(rec: Record, now: Time, force: bool): Record {
    var run := match rec.run case Some(run) => run case None => NewRun.(queuedAt := Some(now));
    if !QueueState(rec.job.state) && !ActionState(rec.job.state) then rec
    else if rec.job.state == Scanning && LeaseLost(run, now, force) then
      Rested(rec.job, run, now)
    else if rec.job.state == ScanPending && run.queuedAt.None? then
      Record(rec.job, Some(run.(queuedAt := Some(now))))
    else Record(rec.job, Some(run))
  }

  function Claimed(rec: Record, w: WorkerId, now: Time, cfg: Settings): Record
    requires rec.run.Some?
  {
    Record(rec.job.(state := Scanning, terminal := false),
           Some(rec.run.value.(worker := Some(w), heartbeatAt := Some(now),
                               leaseExpiresAt := Some(now + cfg.Lease()), nextAttemptAt := None,
                               currentFile := None, attempts := rec.run.value.attempts + 1)))
  }

  function Beaten(rec: Record, w: WorkerId, now: Time, cfg: Settings): Record {
    if !Owns(rec, w) then rec
    else rec.(run := Some(rec.run.value.(heartbeatAt := Some(now), leaseExpiresAt := Some(now + cfg.Lease()))))
  }

  predicate IdentityDiffers(run: Run, identity: Identity) {
    run.rootPath.Some? && run.identity != Some(identity)
  }

  function Prepared(rec: Record, w: WorkerId, root: Path, manifest: seq<ManifestEntry>, identity: Identity): Record {
    if !Owns(rec, w) then rec
    else
      var run := rec.run.value;
      var versionChanged := IdentityDiffers(run, identity);
      var kept := if run.rootPath == Some(root) then run.files else [];
      var files := Rebuild(kept, manifest, versionChanged);
      rec.(run := Some(run.(rootPath := Some(root), files := files, identity := Some(identity),
                            totalFiles := |files|, completedFiles := CleanFiles(files),
                            totalBytes := TotalBytes(files), completedBytes := CleanBytes(files),
                            currentFile := None, verdict := if versionChanged then None else run.verdict)))
  }

  // The pending row chosen next is one of smallest size.
  predicate NextFile(files: seq<FileRow>, i: nat) {
    i < |files| && files[i].status == Pending &&
    forall j :: 0 <= j < |files| && files[j].status == Pending ==> files[i].stamp.size <= files[j].stamp.size
  }

  function StartedRow(row: FileRow, stamp: Fingerprint): FileRow {
    (if row.stamp == stamp then row else row.(stamp := stamp, scannedBy := None))
    .(status := InProgress, attempts := row.attempts + 1)
  }

  function Started(rec: Record, w: WorkerId, i: nat, stamp: Fingerprint, identity: Identity,
                   now: Time, cfg: Settings): Record
  {
    if !Owns(rec, w) || i >= |rec.run.value.files| then rec
    else
      var run := rec.run.value;
      var row := run.files[i];
      rec.(run := Some(run.(files := run.files[i := StartedRow(row, stamp)], identity := Some(identity),
                            totalBytes := run.totalBytes + stamp.size - row.stamp.size,
                            currentFile := Some(row.path), heartbeatAt := Some(now),
                            leaseExpiresAt := Some(now + cfg.Lease()))))
  }

  function ScannedRow(row: FileRow, infected: bool, identity: Identity): FileRow {
    row.(status := if infected then Infected else Clean, scannedBy := Some(identity))
  }

  function Scanned(rec: Record, w: WorkerId, i: nat, infected: bool, threat: string, identity: Identity): Record {
    if !Owns(rec, w) || i >= |rec.run.value.files| then rec
    else
      var run := rec.run.value;
      var row := run.files[i];
      var run1 := run.(files := run.files[i := ScannedRow(row, infected, identity)],
                       completedFiles := run.completedFiles + 1,
                       completedBytes := run.completedBytes + row.stamp.size,
                       currentFile := None, identity := Some(identity), failureCount := 0);
      if infected then
        Record(rec.job.(state := ScanInfected, threat := Some(threat), scanCompleted := true),
               Some(ReleaseLease(run1).(verdict := Some(VerdictInfected))))
      else rec.(run := Some(run1))
  }

  // A worker that sees the pause request between files.
  function PausedAtCheckpoint(rec: Record, w: WorkerId): Record {
    if !Owns(rec, w) || !rec.run.value.pauseRequested then rec
    else Record(rec.job.(state := ScanPaused), Some(ReleaseLease(rec.run.value).(currentFile := None)))
  }

  function Yielded(rec: Record, w: WorkerId, now: Time): Record {
    if !Owns(rec, w) || rec.run.value.pauseRequested then rec
    else Record(rec.job.(state := ScanPending), Some(ReleaseLease(rec.run.value).(queuedAt := Some(now))))
  }

  function FinishedClean(rec: Record, w: WorkerId): Record {
    if !Owns(rec, w) || rec.run.value.pauseRequested || !NonePending(rec.run.value.files) then rec
    else Record(rec.job.(state := ScanClean, scanCompleted := true),
                Some(ReleaseLease(rec.run.value).(verdict := Some(VerdictClean), currentFile := None)))
  }

  function Interrupted(rec: Record, w: WorkerId, now: Time): Record {
    if !Owns(rec, w) then rec else Rested(rec.job, rec.run.value, now)
  }

  function Deferred(rec: Record, w: WorkerId, now: Time, retryAfter: int): Record {
    if !Owns(rec, w) then rec
    else
      var run := rec.run.value;
      Record(rec.job.(state := Resting(run), terminal := false),
             Some(ReleaseLease(run).(queuedAt := Some(now), currentFile := None, files := Release(run.files, Pending),
                                     nextAttemptAt := if retryAfter == 0 then None
                                                      else Some(now + Max(retryAfter, 0)))))
  }

  function AttemptFailed(rec: Record, w: WorkerId, now: Time, cfg: Settings): Record {
    if !Owns(rec, w) then rec
    else
      var run := rec.run.value;
      var run1 := ReleaseLease(run).(failureCount := run.failureCount + 1, currentFile := None,
                                     files := Release(run.files, Pending));
      if run1.failureCount >= Max(cfg.maxFailures, 1) then
        Record(rec.job.(state := Failed, terminal := true), Some(run1))
      else
        var delay := Backoff(Max(cfg.retryBaseSeconds, 1), run.failureCount);
        Record(rec.job.(state := ScanPending, terminal := false),
               Some(run1.(nextAttemptAt := Some(now + delay), queuedAt := Some(now))))
  }

  function PolicyRefused(rec: Record, w: WorkerId): Record {
    if !Owns(rec, w) then rec
    else
      var run := rec.run.value;
      Record(rec.job.(state := Failed, terminal := true),
             Some(ReleaseLease(run).(verdict := Some(VerdictError), nextAttemptAt := None, currentFile := None,
                                     files := Release(run.files, Refused))))
  }

  predicate CanPause(rec: Record) {
    rec.run.Some? && (rec.job.state == ScanPending || rec.job.state == Scanning)
  }

  function PauseAsked(rec: Record): Record {
    if !CanPause(rec) then rec
    else Record(rec.job.(state := if rec.job.state == ScanPending then ScanPaused else rec.job.state),
                Some(rec.run.value.(pauseRequested := true)))
  }

  predicate CanResume(rec: Record) { rec.run.Some? && rec.job.state == ScanPaused }

  function Resumed(rec: Record, now: Time): Record {
    if !CanResume(rec) then rec
    else Record(rec.job.(state := ScanPending, terminal := false),
                Some(rec.run.value.(pauseRequested := false, queuedAt := Some(now), nextAttemptAt := None)))
  }

  function Prioritized(rec: Record, now: Time): Record {
    if rec.job.state != ScanPending && rec.job.state != Scanning then rec
    else rec.(run := Some(RunOf(rec).(priority := Max(RunOf(rec).priority, 100), queuedAt := Some(now))))
  }

  // `run.total_bytes or job.size_bytes or 0` against the threshold.
  predicate IsLarge(rec: Record, cfg: Settings) {
    var total := RunOf(rec).totalBytes;
    var size := if total != 0 then total else match rec.job.sizeBytes case Some(n) => n case None => 0;
    size >= cfg.largeScanBytes
  }
}
