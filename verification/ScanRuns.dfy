// Whole runs of the controller: any interleaving of submissions, scheduler cycles, scan workers,
// restarts, user requests and promotion passes.
module ScanRuns {
  import opened Options
  import opened ScanModel
  import opened Promotion

  // Where a scan worker stands between two commits.
  datatype Phase =
    | AtTop
    | Rebuilt(root: Path, manifest: seq<ManifestEntry>)
    | InFlight(root: Path, index: nat, path: string, stamp: Fingerprint, identity: Identity)

  datatype Worker = Worker(job: JobId, phase: Phase)

  // One answer of the scanner, for the file it was really given.
  datatype ScanEvent = ScanEvent(job: JobId, root: Path, path: string, stamp: Fingerprint,
                                 identity: Identity, infected: bool)

  datatype Control = Control(slots: int, boost: bool)

  datatype Claim = Claim(job: JobId, worker: WorkerId, isLarge: bool)

  // `log`, `sent` and `cleared` are history: scanner answers, folders sent to qBittorrent, and the
  // destination each job had when its clean verdict was recorded.
  datatype World = World(
    records: map<JobId, Record>, control: Control, workers: map<WorkerId, Worker>, nextWorker: WorkerId,
    used: set<JobId>, log: set<ScanEvent>, sent: seq<(JobId, Path)>, cleared: map<JobId, Path>)

  datatype Config = Config(settings: Settings, canon: Path -> Option<Path>)
  {
    // Canonicalizing a canonical folder changes nothing.
    ghost predicate Valid() {
      forall p: Path :: canon(p).Some? ==> canon(canon(p).value) == canon(p)
    }
  }

  // ---------- the scheduler cycle ----------

  function RecoverAll(records: map<JobId, Record>, now: Time, force: bool): map<JobId, Record> {
    map id | id in records :: Recovered(records[id], now, force)
  }

  function InState(records: map<JobId, Record>, s: JobState): set<JobId> {
    set id | id in records && records[id].job.state == s
  }

  function ClampedControl(c: Control, cfg: Settings): Control {
    var slots := Min(Max(c.slots, 1), cfg.HardMaxSlots());
    if c.slots == slots then c else Control(slots, slots > cfg.DefaultSlots())
  }

  function RelaxedControl(c: Control, records: map<JobId, Record>, cfg: Settings): Control {
    if InState(records, ScanPending) == {} && c.boost then Control(cfg.DefaultSlots(), false) else c
  }

  predicate Candidate(rec: Record, now: Time) {
    rec.job.state == ScanPending && rec.run.Some? && !rec.run.value.pauseRequested
    && (rec.run.value.nextAttemptAt.None? || rec.run.value.nextAttemptAt.value <= now)
  }

  // A sorted list of the candidates; the sort key itself is not needed for safety.
  predicate CandidateOrder(records: map<JobId, Record>, order: seq<JobId>, now: Time) {
    (forall i, j :: 0 <= i < j < |order| ==> order[i] != order[j])
    && (forall id <- order :: id in records && Candidate(records[id], now))
    && (forall id :: id in records && Candidate(records[id], now) ==> id in order)
  }

  // One claim: the row is held by a worker nobody has used before.
  function ClaimOne(x: World, id: JobId, now: Time, cfg: Settings): World
    requires id in x.records && x.records[id].run.Some?
  {
    x.(records := x.records[id := Claimed(x.records[id], x.nextWorker, now, cfg)],
       workers := x.workers[x.nextWorker := Worker(id, AtTop)], nextWorker := x.nextWorker + 1)
  }

  function ClaimLoop(x: World, order: seq<JobId>, available: int, activeLarge: int, now: Time, cfg: Settings)
    : (World, seq<Claim>)
    requires forall id <- order :: id in x.records && x.records[id].run.Some?
    decreases |order|
  {
    if order == [] || available <= 0 then (x, [])
    else
      var id := order[0];
      var large := IsLarge(x.records[id], cfg);
      if large && activeLarge >= cfg.MaxLarge() then ClaimLoop(x, order[1..], available, activeLarge, now, cfg)
      else
        var (y, claims) := ClaimLoop(ClaimOne(x, id, now, cfg), order[1..], available - 1,
                                     if large then activeLarge + 1 else activeLarge, now, cfg);
        (y, [Claim(id, x.nextWorker, large)] + claims)
  }

  // The jobs that count against the slots: scanning under an unexpired lease.
  function Active(records: map<JobId, Record>, now: Time): set<JobId> {
    set id | id in records && records[id].job.state == Scanning && records[id].run.Some?
             && records[id].run.value.leaseExpiresAt.Some? && records[id].run.value.leaseExpiresAt.value > now
  }

  function ActiveLarge(records: map<JobId, Record>, now: Time, cfg: Settings): set<JobId> {
    set id | id in Active(records, now) && IsLarge(records[id], cfg)
  }

  function SchedulerCycle(x: World, order: seq<JobId>, now: Time, maintenance: bool, canScan: bool, cfg: Settings)
    : (World, seq<Claim>)
    requires CandidateOrder(RecoverAll(x.records, now, false), order, now)
  {
    var x1 := x.(records := RecoverAll(x.records, now, false), control := ClampedControl(x.control, cfg));
    if maintenance || !canScan then (x1, [])
    else
      var x2 := x1.(control := RelaxedControl(x1.control, x1.records, cfg));
      var available := Max(x2.control.slots - |Active(x2.records, now)|, 0);
      if available == 0 then (x2, [])
      else
        var (x3, claims) := ClaimLoop(x2, order, available, |ActiveLarge(x2.records, now, cfg)|, now, cfg);
        (x3.(control := RelaxedControl(x3.control, x3.records, cfg)), claims)
  }

  // ---------- one step ----------

  // Requests and service steps that look at one job.
  datatype JobEvent =
    | Move(job: Job)
    | Enqueue(now: Time)
    | Retry(outcome: RetryOutcome, now: Time)
    | Edit(expected: Path, folder: Path)
    | Pause
    | Resume(now: Time)
    | Prioritize(now: Time)
    | ActOnInfection(step: InfectedStep)

  predicate JobEnabled(rec: Record, e: JobEvent) {
    match e
    case Move(job) => Advanced(rec.job, job)
    case Enqueue(_) => ReadyToQueue(rec.job)
    case Retry(o, _) => RetryOutcomePossible(o)
    case _ => true
  }

  function JobStep(rec: Record, e: JobEvent): Record {
    match e
    case Move(job) => rec.(job := job)
    case Enqueue(now) => Queued(rec, now)
    case Retry(o, now) => Retried(rec, o, now)
    case Edit(expected, folder) => Edited(rec, expected, folder)
    case Pause => PauseAsked(rec)
    case Resume(now) => Resumed(rec, now)
    case Prioritize(now) => Prioritized(rec, now)
    case ActOnInfection(step) => InfectedActed(rec, step)
  }

  // Worker steps that record no scan result.
  datatype WorkerEvent =
    | Heartbeat(now: Time)
    | PauseHere
    | Yield(now: Time)
    | Interrupt(now: Time)
    | Defer(now: Time, retryAfter: int)
    | FailAttempt(now: Time)
    | Refuse

  predicate WorkerEnabled(phase: Phase, e: WorkerEvent) {
    match e
    case PauseHere => !phase.InFlight?
    case Yield(_) => phase == AtTop
    case _ => true
  }

  function WorkerStep(rec: Record, w: WorkerId, e: WorkerEvent, cfg: Settings): Record {
    match e
    case Heartbeat(now) => Beaten(rec, w, now, cfg)
    case PauseHere => PausedAtCheckpoint(rec, w)
    case Yield(now) => Yielded(rec, w, now)
    case Interrupt(now) => Interrupted(rec, w, now)
    case Defer(now, after) => Deferred(rec, w, now, after)
    case FailAttempt(now) => AttemptFailed(rec, w, now, cfg)
    case Refuse => PolicyRefused(rec, w)
  }

  datatype Event =
    | Submit(id: JobId, job: Job)
    | OnJob(id: JobId, event: JobEvent)
    | OnWorker(w: WorkerId, step: WorkerEvent)
    | Delete(id: JobId)
    | SetSlots(slots: int)
    | Recover(now: Time, force: bool)
    | Schedule(now: Time, order: seq<JobId>, maintenance: bool, canScan: bool)
    | Prepare(w: WorkerId, root: Path, manifest: seq<ManifestEntry>, identity: Identity, last: bool)
    | Start(w: WorkerId, i: nat, stamp: Fingerprint, identity: Identity, now: Time)
    | Answer(w: WorkerId, infected: bool, threat: string)
    | FinishClean(w: WorkerId)
    | Promote(id: JobId, torrent: Option<Torrent>, hookAccepts: bool)

  function Put(x: World, id: JobId, rec: Record): World {
    x.(records := x.records[id := rec])
  }

  function At(x: World, w: WorkerId, phase: Phase): World
    requires w in x.workers
  {
    x.(workers := x.workers[w := x.workers[w].(phase := phase)])
  }

  // The worker exists and its job has not been removed.
  predicate Live(x: World, w: WorkerId) {
    w in x.workers && x.workers[w].job in x.records
  }

  function OfWorker(x: World, w: WorkerId): Record
    requires Live(x, w)
  {
    x.records[x.workers[w].job]
  }

  predicate CleanPass(rec: Record) { rec.job.state == ScanClean || rec.job.state == Promoting }

  predicate Fresh(job: Job) {
    job.state == AddingToQbt && !job.terminal && !job.scanCompleted && !job.promoted && !job.deleted
    && job.threat.None? && job.quarantinePath.None? && !job.hookQueued && !job.downloadComplete && !job.completionEvent
  }

  // The last rebuild of a scan happens when nothing is pending under an unchanged identity.
  predicate CanPrepare(rec: Record, w: WorkerId, phase: Phase, manifest: seq<ManifestEntry>,
                       identity: Identity, last: bool) {
    !phase.InFlight? && DistinctEntries(manifest)
    && (last ==> Owns(rec, w) && NonePending(rec.run.value.files) && rec.run.value.rootPath.Some?
                 && !IdentityDiffers(rec.run.value, identity))
  }

  predicate CanStart(rec: Record, w: WorkerId, phase: Phase, i: nat, identity: Identity) {
    phase == AtTop && Owns(rec, w) && rec.run.value.rootPath.Some?
    && !IdentityDiffers(rec.run.value, identity) && NextFile(rec.run.value.files, i)
  }

  predicate Enabled(cfg: Config, x: World, e: Event) {
    match e
    case Submit(id, job) => id !in x.used && Fresh(job)
    case OnJob(id, event) => id in x.records && JobEnabled(x.records[id], event)
    case OnWorker(w, step) => Live(x, w) && WorkerEnabled(x.workers[w].phase, step)
    case Delete(id) => id in x.records
    case SetSlots(n) => 1 <= n <= cfg.settings.HardMaxSlots()
    case Recover(_, _) => true
    case Schedule(now, order, _, _) => CandidateOrder(RecoverAll(x.records, now, false), order, now)
    case Prepare(w, root, manifest, identity, last) =>
      Live(x, w) && CanPrepare(OfWorker(x, w), w, x.workers[w].phase, manifest, identity, last)
    case Start(w, i, _, identity, _) => Live(x, w) && CanStart(OfWorker(x, w), w, x.workers[w].phase, i, identity)
    case Answer(w, _, _) => Live(x, w) && x.workers[w].phase.InFlight?
    case FinishClean(w) => Live(x, w) && x.workers[w].phase.Rebuilt?
    case Promote(id, _, _) => id in x.records && CleanPass(x.records[id])
  }

  function AfterPrepare(x: World, w: WorkerId, root: Path, manifest: seq<ManifestEntry>, identity: Identity,
                        last: bool): World
    requires Live(x, w)
  {
    At(Put(x, x.workers[w].job, Prepared(OfWorker(x, w), w, root, manifest, identity)), w,
       if last then Rebuilt(root, manifest) else AtTop)
  }

  function AfterStart(cfg: Config, x: World, w: WorkerId, i: nat, stamp: Fingerprint, identity: Identity,
      now: Time): World
    requires Live(x, w) && CanStart(OfWorker(x, w), w, x.workers[w].phase, i, identity)
  {
    var rec := OfWorker(x, w);
    At(Put(x, x.workers[w].job, Started(rec, w, i, stamp, identity, now, cfg.settings)), w,
       InFlight(rec.run.value.rootPath.value, i, rec.run.value.files[i].path, stamp, identity))
  }

  function AfterAnswer(x: World, w: WorkerId, infected: bool, threat: string): World
    requires Live(x, w) && x.workers[w].phase.InFlight?
  {
    var p := x.workers[w].phase;
    At(Put(x, x.workers[w].job, Scanned(OfWorker(x, w), w, p.index, infected, threat, p.identity)), w, AtTop)
    .(log := x.log + {ScanEvent(x.workers[w].job, p.root, p.path, p.stamp, p.identity, infected)})
  }

  function AfterFinishClean(x: World, w: WorkerId): World
    requires Live(x, w)
  {
    var id := x.workers[w].job;
    var rec := FinishedClean(x.records[id], w);
    At(Put(x, id, rec), w, AtTop)
    .(cleared := if rec == x.records[id] then x.cleared else x.cleared[id := rec.job.finalParent])
  }

  function AfterPromote(cfg: Config, x: World, id: JobId, torrent: Option<Torrent>, hookAccepts: bool): World
    requires id in x.records
  {
    var (rec, done) := Reconcile(x.records[id], cfg.canon, torrent, hookAccepts);
    Put(x, id, rec)
    .(sent := match done case Ok(LocationSent(folder)) => x.sent + [(id, folder)] case _ => x.sent)
  }

  function Apply(cfg: Config, x: World, e: Event): World
    requires Enabled(cfg, x, e)
  {
    match e
    case Submit(id, job) => Put(x, id, Record(job, None)).(used := x.used + {id})
    case OnJob(id, event) => Put(x, id, JobStep(x.records[id], event))
    case OnWorker(w, step) =>
      var y := Put(x, x.workers[w].job, WorkerStep(OfWorker(x, w), w, step, cfg.settings));
      if step.Heartbeat? then y else At(y, w, AtTop)
    case Delete(id) => x.(records := x.records - {id})
    case SetSlots(n) => x.(control := Control(n, n > cfg.settings.DefaultSlots()))
    case Recover(now, force) => x.(records := RecoverAll(x.records, now, force))
    case Schedule(now, order, maintenance, canScan) =>
      SchedulerCycle(x, order, now, maintenance, canScan, cfg.settings).0
    case Prepare(w, root, manifest, identity, last) => AfterPrepare(x, w, root, manifest, identity, last)
    case Start(w, i, stamp, identity, now) => AfterStart(cfg, x, w, i, stamp, identity, now)
    case Answer(w, infected, threat) => AfterAnswer(x, w, infected, threat)
    case FinishClean(w) => AfterFinishClean(x, w)
    case Promote(id, torrent, hookAccepts) => AfterPromote(cfg, x, id, torrent, hookAccepts)
  }

  // ---------- invariants ----------

  // The totals are a recount of the rows.
  predicate CountersAgree(files: seq<FileRow>, totalFiles: int, completedFiles: int, totalBytes: int,
      completedBytes: int) {
    totalFiles == |files| && totalBytes == TotalBytes(files)
    && completedFiles == CompletedFiles(files) && completedBytes == CompletedBytes(files)
  }

  // A job is "scanning" exactly while its run is held, and holds nothing otherwise.
  predicate LeaseAgrees(state: JobState, run: Run) {
    if state == Scanning then
      run.worker.Some? && run.leaseExpiresAt.Some? && run.heartbeatAt.Some?
    else
      run.worker.None? && run.leaseExpiresAt.None? && run.heartbeatAt.None?
      && run.currentFile.None? && NoneInProgress(run.files)
  }

  predicate VerdictAgrees(state: JobState, run: Run) {
    (CleanSide(state) ==> run.verdict == Some(VerdictClean))
    && (InfectedSide(state) ==> run.verdict == Some(VerdictInfected))
    && (QueueState(state) ==> run.verdict.None?)
    && (state == ScanPaused ==> run.pauseRequested)
  }

  predicate MarksAgree(job: Job) {
    job.scanCompleted == (CleanSide(job.state) || InfectedSide(job.state))
    && job.promoted == (job.state == Done)
    && job.deleted == (job.state == InfectedDeleted)
    && job.terminal == TerminalState(job.state)
  }

  // Every verdict in the rows was given under the run's present identity.
  predicate RowsAgree(files: seq<FileRow>, rootPath: Option<Path>, identity: Option<Identity>) {
    DistinctPaths(files)
    && (files != [] ==> rootPath.Some?)
    && (rootPath.Some? ==> identity.Some?)
    && forall row <- files :: Completed(row) ==> row.scannedBy == identity
  }

  predicate BooksAgree(run: Run) {
    CountersAgree(run.files, run.totalFiles, run.completedFiles, run.totalBytes, run.completedBytes)
    && RowsAgree(run.files, run.rootPath, run.identity)
  }

  predicate RecordOk(rec: Record) {
    MarksAgree(rec.job) && LeaseAgrees(rec.job.state, RunOf(rec)) && VerdictAgrees(rec.job.state, RunOf(rec))
    && BooksAgree(RunOf(rec))
    && (rec.run.None? ==> BeforeScan(rec.job.state) || rec.job.state == Failed)
  }

  // Every clean row is backed by a scan of that path and fingerprint under the run's identity.
  predicate RowsBacked(id: JobId, files: seq<FileRow>, rootPath: Option<Path>, identity: Option<Identity>,
                       log: set<ScanEvent>) {
    forall row <- files :: row.status == Clean ==>
      rootPath.Some? && identity.Some?
      && ScanEvent(id, rootPath.value, row.path, row.stamp, identity.value, false) in log
  }

  predicate Backed(id: JobId, run: Run, log: set<ScanEvent>) {
    RowsBacked(id, run.files, run.rootPath, run.identity, log)
  }

  predicate OneInProgress(files: seq<FileRow>, i: nat) {
    i < |files| && files[i].status == InProgress
    && forall j :: 0 <= j < |files| && j != i ==> files[j].status != InProgress
  }

  predicate CleanOrPending(files: seq<FileRow>) {
    forall row <- files :: row.status == Clean || row.status == Pending
  }

  predicate PhaseAgrees(run: Run, phase: Phase) {
    match phase
    case AtTop => NoneInProgress(run.files) && run.currentFile.None?
    case Rebuilt(root, manifest) =>
      NoneInProgress(run.files) && run.currentFile.None? && run.rootPath == Some(root)
      && RowsMatch(run.files, manifest) && CleanOrPending(run.files)
    case InFlight(root, i, path, stamp, identity) =>
      OneInProgress(run.files, i) && run.rootPath == Some(root) && run.identity == Some(identity)
      && run.files[i].path == path && run.files[i].stamp == stamp
  }

  // A held run names a worker that knows about it.
  predicate OwnerAgrees(id: JobId, run: Run, workers: map<WorkerId, Worker>) {
    match run.worker
    case None => true
    case Some(w) => w in workers && workers[w].job == id && PhaseAgrees(run, workers[w].phase)
  }

  // The folder a clean job goes to is the one it had when it was cleared.
  predicate FolderAgrees(cfg: Config, id: JobId, job: Job, cleared: map<JobId, Path>) {
    if CleanSide(job.state) then
      id in cleared && (job.finalParent == cleared[id] || Some(job.finalParent) == cfg.canon(cleared[id]))
    else id !in cleared
  }

  predicate RecordInv(cfg: Config, x: World, id: JobId)
    requires id in x.records
  {
    RecordOk(x.records[id]) && Backed(id, RunOf(x.records[id]), x.log)
    && OwnerAgrees(id, RunOf(x.records[id]), x.workers)
    && FolderAgrees(cfg, id, x.records[id].job, x.cleared)
  }

  predicate SentToClearedFolder(cfg: Config, s: (JobId, Path), cleared: map<JobId, Path>) {
    s.0 in cleared && cfg.canon(cleared[s.0]) == Some(s.1)
  }

  ghost predicate HistoryInv(cfg: Config, x: World) {
    (forall s <- x.sent :: SentToClearedFolder(cfg, s, x.cleared))
    && x.records.Keys <= x.used && x.cleared.Keys <= x.used
    && (forall w <- x.workers :: w < x.nextWorker && x.workers[w].job in x.used)
  }

  predicate SlotsKept(cfg: Config, x: World) {
    |InState(x.records, Scanning)| <= cfg.settings.HardMaxSlots()
  }

  ghost predicate Inv(cfg: Config, x: World) {
    (forall id <- x.records :: RecordInv(cfg, x, id)) && HistoryInv(cfg, x) && SlotsKept(cfg, x)
  }
}
