// The coordinator and the service steps around it, as they update the durable rows.
// A method loads a record, changes its copy step by step, and stores it back where the program commits.
module ScanStore {
  import opened Options
  import opened ScanModel
  import opened Promotion
  import opened ScanRuns

  datatype Refusal = NotFound | NotAllowed

  // The rows after a step on one record; a missing job changes nothing.
  function Updated(records: map<JobId, Record>, id: JobId, step: Record -> Record): map<JobId, Record> {
    if id in records then records[id := step(records[id])] else records
  }

  // The worker's place after a step of its own.
  function Placed(workers: map<WorkerId, Worker>, w: WorkerId, phase: Phase): map<WorkerId, Worker> {
    if w in workers then workers[w := workers[w].(phase := phase)] else workers
  }

  // ---------- counting rows in a loop ----------

  lemma {:induction false} TotalsOfAppend(files: seq<FileRow>, row: FileRow)
    ensures TotalBytes(files + [row]) == TotalBytes(files) + row.stamp.size
    ensures CleanFiles(files + [row]) == CleanFiles(files) + (if row.status == Clean then 1 else 0)
    ensures CleanBytes(files + [row]) == CleanBytes(files) + (if row.status == Clean then row.stamp.size else 0)
  {
    if files == [] {
      assert files + [row] == [row];
    } else {
      assert (files + [row])[1..] == files[1..] + [row];
      TotalsOfAppend(files[1..], row);
    }
  }

  // SELECT ... WHERE status = 'pending' ORDER BY size_bytes LIMIT 1.
  method SelectPending(files: seq<FileRow>) returns (found: Option<nat>)
    ensures found.None? <==> NonePending(files)
    ensures found.Some? ==> NextFile(files, found.value)
  {
    found := None;
    for n := 0 to |files|
      invariant found.None? <==> forall i :: 0 <= i < n ==> files[i].status != Pending
      invariant found.Some? ==> found.value < n && files[found.value].status == Pending
                                && forall j :: 0 <= j < n && files[j].status == Pending ==>
                                     files[found.value].stamp.size <= files[j].stamp.size
    {
      if files[n].status == Pending && (found.None? || files[n].stamp.size < files[found.value].stamp.size) {
        found := Some(n);
      }
    }
  }

  // The file table after a rebuild, and its recount.
  method RebuildRows(kept: seq<FileRow>, manifest: seq<ManifestEntry>, versionChanged: bool)
    returns (files: seq<FileRow>, completedFiles: nat, totalBytes: nat, completedBytes: nat)
    ensures files == Rebuild(kept, manifest, versionChanged)
    ensures completedFiles == CleanFiles(files)
    ensures totalBytes == TotalBytes(files) && completedBytes == CleanBytes(files)
  {
    files, completedFiles, totalBytes, completedBytes := [], 0, 0, 0;
    for n := 0 to |manifest|
      invariant |files| == n
      invariant forall i :: 0 <= i < n ==>
                  files[i] == Reconciled(Lookup(kept, manifest[i].path), manifest[i], versionChanged)
      invariant completedFiles == CleanFiles(files) && totalBytes == TotalBytes(files)
          && completedBytes == CleanBytes(files)
    {
      var entry := manifest[n];
      var row;
      match Lookup(kept, entry.path) {
        case None => row := FileRow(entry.path, entry.stamp, Pending, 0, None);
        case Some(known) =>
          row := known;
          if row.stamp != entry.stamp || versionChanged || (row.status != Pending && row.status != Clean) {
            row := row.(stamp := entry.stamp);
            row := row.(status := Pending);
            row := row.(scannedBy := None);
          }
      }
      TotalsOfAppend(files, row);
      files := files + [row];
      totalBytes := totalBytes + entry.stamp.size;
      if row.status == Clean {
        completedFiles := completedFiles + 1;
        completedBytes := completedBytes + row.stamp.size;
      }
    }
  }

  // What the two methods on the slots promise leaves one outcome each.
  lemma ClampedIsOne(c: Control, after: Control, cfg: Settings)
    requires 1 <= after.slots <= cfg.HardMaxSlots() && (1 <= c.slots <= cfg.HardMaxSlots() ==> after == c)
    requires c.slots < 1 ==> after.slots == 1
    requires c.slots > cfg.HardMaxSlots() ==> after.slots == cfg.HardMaxSlots()
    requires after != c ==> (after.boost <==> after.slots > cfg.DefaultSlots())
    ensures after == ClampedControl(c, cfg)
  {}

  lemma RelaxedIsOne(c: Control, after: Control, records: map<JobId, Record>, cfg: Settings)
    requires after.boost <==> c.boost && exists id <- records :: records[id].job.state == ScanPending
    requires after.boost == c.boost ==> after == c
    requires after.boost != c.boost ==> after.slots == cfg.DefaultSlots()
    ensures after == RelaxedControl(c, records, cfg)
  {
    assert forall id <- records :: id in InState(records, ScanPending) <==> records[id].job.state == ScanPending;
  }

  lemma ClaimedHasRun(rec: Record, w: WorkerId, now: Time, cfg: Settings)
    requires rec.run.Some?
    ensures Claimed(rec, w, now, cfg).run.Some?
  {}

  class Controller {
    const cfg: Config
    var records: map<JobId, Record>
    var control: Control
    var nextWorker: WorkerId
    ghost var workers: map<WorkerId, Worker>
    ghost var used: set<JobId>
    ghost var log: set<ScanEvent>
    ghost var sent: seq<(JobId, Path)>
    ghost var cleared: map<JobId, Path>

    ghost function View(): (x: World)
      reads this
    {
      World(records, control, workers, nextWorker, used, log, sent, cleared)
    }

    // The claim's job and the worker's job are the same.
    ghost predicate Genuine(claim: Claim)
      reads this
    {
      Live(View(), claim.worker) && workers[claim.worker].job == claim.job
    }

    // ---------- queueing and recovery ----------

    method QueueJob(id: JobId, now: Time)
      modifies this`records
      ensures records == Updated(old(records), id, rec => Queued(rec, now))
    {
      if id !in records { return; }
      var job := records[id].job;
      var run := NewRun;
      if records[id].run.Some? { run := records[id].run.value; }
      run := run.(pauseRequested := false, failureCount := 0);
      if run.queuedAt.None? { run := run.(queuedAt := Some(now)); }
      run := run.(nextAttemptAt := None, worker := None, leaseExpiresAt := None, heartbeatAt := None);
      run := run.(currentFile := None, verdict := None);
      job := job.(state := ScanPending, terminal := false);
      records := records[id := Record(job, Some(run))];
    }

    method RecoverInterruptedScans(now: Time, force: bool)
      modifies this`records
      ensures records == RecoverAll(old(records), now, force)
    {
      var todo := records.Keys;
      while todo != {}
        invariant todo <= records.Keys == old(records.Keys)
        invariant forall id <- todo :: records[id] == old(records)[id]
        invariant forall id <- records :: id !in todo ==> records[id] == Recovered(old(records)[id], now, force)
        decreases |todo|
      {
        var id :| id in todo;
        todo := todo - {id};
        var job := records[id].job;
        if QueueState(job.state) || ActionState(job.state) {
          var run;
          match records[id].run {
            case Some(known) => run := known;
            case None => run := NewRun.(queuedAt := Some(now));
          }
          if job.state == Scanning && LeaseLost(run, now, force) {
            job := job.(state := if run.pauseRequested then ScanPaused else ScanPending);
            run := run.(queuedAt := Some(now));
            run := run.(worker := None, leaseExpiresAt := None, heartbeatAt := None);
            run := run.(currentFile := None, files := Release(run.files, Pending));
          } else if job.state == ScanPending && run.queuedAt.None? {
            run := run.(queuedAt := Some(now));
          }
          records := records[id := Record(job, Some(run))];
        }
      }
    }

    // ---------- claims ----------

    method EnsureControl()
      modifies this`control
      ensures 1 <= control.slots <= cfg.settings.HardMaxSlots()
      ensures 1 <= old(control).slots <= cfg.settings.HardMaxSlots() ==> control == old(control)
      ensures old(control).slots < 1 ==> control.slots == 1
      ensures old(control).slots > cfg.settings.HardMaxSlots() ==> control.slots == cfg.settings.HardMaxSlots()
      ensures control != old(control) ==> (control.boost <==> control.slots > cfg.settings.DefaultSlots())
    {
      var slots := Min(Max(control.slots, 1), cfg.settings.HardMaxSlots());
      if control.slots != slots {
        control := Control(slots, slots > cfg.settings.DefaultSlots());
      }
    }

    method RelaxBoost()
      modifies this`control
      ensures control.boost <==> old(control).boost && exists id <- records :: records[id].job.state == ScanPending
      ensures control.boost == old(control).boost ==> control == old(control)
      ensures control.boost != old(control).boost ==> control.slots == cfg.settings.DefaultSlots()
    {
      var queued := set id | id in records && records[id].job.state == ScanPending;
      assert forall id <- records :: id in queued <==> records[id].job.state == ScanPending;
      if queued == {} && control.boost {
        control := Control(cfg.settings.DefaultSlots(), false);
      }
    }

    // Claims down the candidate list while slots are left; a large job is skipped when the large cap is reached.
    method ClaimInOrder(order: seq<JobId>, available: int, activeLarge: int, now: Time) returns (claims: seq<Claim>)
      requires forall id <- order :: id in records && records[id].run.Some?
      modifies this`records, this`workers, this`nextWorker
      ensures (View(), claims) == ClaimLoop(old(View()), order, available, activeLarge, now, cfg.settings)
    {
      hide IsLarge, Claimed;
      claims := [];
      var large := activeLarge;
      ghost var x := View();
      assert order[0..] == order;
      ghost var all := ClaimLoop(x, order, available, activeLarge, now, cfg.settings);
      assert [] + all.1 == all.1;
      for n := 0 to |order|
        invariant forall id <- order[n..] :: id in records && records[id].run.Some?
        invariant var (y, tail) := ClaimLoop(View(), order[n..], available - |claims|, large, now, cfg.settings);
                  all == (y, claims + tail)
      {
        if |claims| >= available {
          assert claims + [] == claims;
          return;
        }
        var id := order[n];
        ghost var x0 := View();
        assert order[n..][0] == id && order[n..][1..] == order[n + 1..];
        assert id in order[n..];
        var isLarge := IsLarge(records[id], cfg.settings);
        if isLarge && large >= cfg.settings.MaxLarge() { continue; }
        ClaimedHasRun(records[id], nextWorker, now, cfg.settings);
        ghost var tail := ClaimLoop(ClaimOne(x0, id, now, cfg.settings), order[n + 1..], available - |claims| - 1,
                                    if isLarge then large + 1 else large, now, cfg.settings).1;
        assert claims + ([Claim(id, nextWorker, isLarge)] + tail) == (claims + [Claim(id, nextWorker, isLarge)]) + tail;
        records := records[id := Claimed(records[id], nextWorker, now, cfg.settings)];
        workers := workers[nextWorker := Worker(id, AtTop)];
        claims := claims + [Claim(id, nextWorker, isLarge)];
        nextWorker := nextWorker + 1;
        if isLarge { large := large + 1; }
        assert View() == ClaimOne(x0, id, now, cfg.settings);
      }
      assert claims + [] == claims;
    }

    method ClaimJobs(order: seq<JobId>, now: Time, maintenance: bool, canScan: bool) returns (claims: seq<Claim>)
      requires CandidateOrder(RecoverAll(records, now, false), order, now)
      modifies this`records, this`workers, this`nextWorker, this`control
      ensures (View(), claims) == SchedulerCycle(old(View()), order, now, maintenance, canScan, cfg.settings)
    {
      hide IsLarge, Claimed, Recovered, ClaimLoop, ActiveLarge, Active, ClampedControl, RelaxedControl;
      claims := [];
      RecoverInterruptedScans(now, false);
      ghost var before := control;
      EnsureControl();
      ClampedIsOne(before, control, cfg.settings);
      if maintenance || !canScan { return; }
      var active := Active(records, now);
      var large := |ActiveLarge(records, now, cfg.settings)|;
      before := control;
      RelaxBoost();
      RelaxedIsOne(before, control, records, cfg.settings);
      var available := Max(control.slots - |active|, 0);
      if available == 0 { return; }
      claims := ClaimInOrder(order, available, large, now);
      before := control;
      RelaxBoost();
      RelaxedIsOne(before, control, records, cfg.settings);
    }

    method Heartbeat(claim: Claim, stopping: bool, now: Time) returns (renewed: bool)
      modifies this`records
      ensures renewed <==> !stopping && claim.job in old(records) && Owns(old(records)[claim.job], claim.worker)
      ensures records == if stopping then old(records)
                         else Updated(old(records), claim.job, rec => Beaten(rec, claim.worker, now, cfg.settings))
      ensures !stopping && old(Genuine(claim)) ==> View() == Apply(cfg, old(View()), OnWorker(claim.worker,
          WorkerEvent.Heartbeat(now)))
    {
      if stopping || claim.job !in records { return false; }
      var rec := records[claim.job];
      if rec.run.None? || rec.run.value.worker != Some(claim.worker) {
        assert records[claim.job := rec] == records;
        return false;
      }
      var run := rec.run.value.(heartbeatAt := Some(now));
      run := run.(leaseExpiresAt := Some(now + cfg.settings.Lease()));
      records := records[claim.job := rec.(run := Some(run))];
      return true;
    }

    // ---------- one scan ----------

    method PrepareManifest(claim: Claim, root: Path, manifest: seq<ManifestEntry>, identity: Identity, ghost last: bool)
      requires DistinctEntries(manifest)
      modifies this`records, this`workers
      ensures records == Updated(old(records), claim.job, rec => Prepared(rec, claim.worker, root, manifest, identity))
      ensures workers == Placed(old(workers), claim.worker, if last then Rebuilt(root, manifest) else AtTop)
      ensures var e := Prepare(claim.worker, root, manifest, identity, last);
              old(Genuine(claim)) && Enabled(cfg, old(View()), e) ==> View() == Apply(cfg, old(View()), e)
    {
      hide Rebuild, CleanFiles, CleanBytes, TotalBytes, CanPrepare, DistinctEntries;
      workers := Placed(workers, claim.worker, if last then Rebuilt(root, manifest) else AtTop);
      if claim.job !in records { return; }
      var rec := records[claim.job];
      if rec.run.None? || rec.run.value.worker != Some(claim.worker) {
        assert records[claim.job := rec] == records;
        return;
      }
      var run := rec.run.value;
      var versionChanged := run.rootPath.Some? && run.identity != Some(identity);
      var kept := run.files;
      if run.rootPath != Some(root) { kept := []; }
      var files, completedFiles, totalBytes, completedBytes := RebuildRows(kept, manifest, versionChanged);
      run := run.(rootPath := Some(root), files := files);
      run := run.(totalFiles := |files|, completedFiles := completedFiles);
      run := run.(totalBytes := totalBytes, completedBytes := completedBytes);
      run := run.(identity := Some(identity), currentFile := None);
      if versionChanged { run := run.(verdict := None); }
      records := records[claim.job := rec.(run := Some(run))];
    }

    // The next pending file, with the fingerprint it has on disk now; None stands for a file that is missing or
    // not a regular one, and is refused.
    method StartFile(claim: Claim, stat: string -> Option<Fingerprint>, identity: Identity, now: Time)
        returns (found: Option<nat>, started: bool)
      requires Genuine(claim) && Owns(records[claim.job], claim.worker)
      requires workers[claim.worker].phase == AtTop
      requires records[claim.job].run.value.rootPath.Some? && !IdentityDiffers(records[claim.job].run.value, identity)
      modifies this`records, this`workers
      ensures found.None? <==> NonePending(old(records)[claim.job].run.value.files)
      ensures found.Some? ==> NextFile(old(records)[claim.job].run.value.files, found.value)
      ensures started <==> found.Some? && stat(old(records)[claim.job].run.value.files[found.value].path).Some?
      ensures !started ==> View() == old(View())
      ensures started ==>
                View() == AfterStart(cfg, old(View()), claim.worker, found.value,
                    stat(old(records)[claim.job].run.value.files[found.value].path).value, identity, now)
    {
      var rec := records[claim.job];
      var run := rec.run.value;
      started := false;
      found := SelectPending(run.files);
      if found.None? { return; }
      var row := run.files[found.value];
      var previousSize := row.stamp.size;
      if stat(row.path).None? { return; }
      var onDisk := stat(row.path).value;
      if onDisk != row.stamp {
        row := row.(stamp := onDisk);
        row := row.(status := Pending, scannedBy := None);
      }
      run := run.(identity := Some(identity));
      run := run.(totalBytes := run.totalBytes + row.stamp.size - previousSize);
      row := row.(status := InProgress, attempts := row.attempts + 1);
      run := run.(files := run.files[found.value := row], currentFile := Some(row.path));
      run := run.(heartbeatAt := Some(now), leaseExpiresAt := Some(now + cfg.settings.Lease()));
      workers := Placed(workers, claim.worker, InFlight(run.rootPath.value, found.value, row.path, row.stamp,
          identity));
      records := records[claim.job := rec.(run := Some(run))];
      started := true;
    }

    // The scanner's answer for the file in flight; refused when the run has been reclaimed.
    method RecordAnswer(claim: Claim, index: nat, identity: Identity, infected: bool, threat: string)
        returns (recorded: bool)
      requires Genuine(claim) && workers[claim.worker].phase.InFlight?
      requires workers[claim.worker].phase.index == index && workers[claim.worker].phase.identity == identity
      modifies this`records, this`workers, this`log
      ensures recorded <==> Owns(old(records)[claim.job], claim.worker)
                            && index < |old(records)[claim.job].run.value.files|
      ensures View() == AfterAnswer(old(View()), claim.worker, infected, threat)
    {
      ghost var p := workers[claim.worker].phase;
      log := log + {ScanEvent(claim.job, p.root, p.path, p.stamp, p.identity, infected)};
      workers := Placed(workers, claim.worker, AtTop);
      var rec := records[claim.job];
      if rec.run.None? || rec.run.value.worker != Some(claim.worker) || index >= |rec.run.value.files| {
        assert records[claim.job := rec] == records;
        return false;
      }
      var job, run := rec.job, rec.run.value;
      var row := run.files[index];
      row := row.(status := if infected then Infected else Clean);
      row := row.(scannedBy := Some(identity));
      run := run.(files := run.files[index := row]);
      run := run.(completedFiles := run.completedFiles + 1, completedBytes := run.completedBytes + row.stamp.size);
      run := run.(currentFile := None, identity := Some(identity), failureCount := 0);
      if infected {
        run := run.(verdict := Some(VerdictInfected));
        job := job.(threat := Some(threat), scanCompleted := true, state := ScanInfected);
        run := run.(worker := None, leaseExpiresAt := None, heartbeatAt := None);
      }
      records := records[claim.job := Record(job, Some(run))];
      return true;
    }

    // Between files: a pause wins over a yield.
    method Checkpoint(claim: Claim, shouldYield: bool, now: Time) returns (released: bool)
      requires Genuine(claim) && workers[claim.worker].phase == AtTop
      modifies this`records
      ensures var rec := old(records)[claim.job];
              released <==> Owns(rec, claim.worker) && (rec.run.value.pauseRequested || shouldYield)
      ensures !released ==> records == old(records)
      ensures var rec := old(records)[claim.job];
              var e := OnWorker(claim.worker,
                  if RunOf(rec).pauseRequested || !shouldYield then PauseHere else Yield(now));
              Enabled(cfg, old(View()), e) && View() == Apply(cfg, old(View()), e)
    {
      var rec := records[claim.job];
      assert records[claim.job := rec] == records && workers[claim.worker := workers[claim.worker]] == workers;
      if rec.run.None? || rec.run.value.worker != Some(claim.worker) { return false; }
      var job, run := rec.job, rec.run.value;
      if run.pauseRequested {
        job := job.(state := ScanPaused);
        run := run.(currentFile := None);
      } else if shouldYield {
        job := job.(state := ScanPending);
        run := run.(queuedAt := Some(now));
      } else {
        return false;
      }
      run := run.(worker := None, leaseExpiresAt := None, heartbeatAt := None);
      records := records[claim.job := Record(job, Some(run))];
      return true;
    }

    method FinishCleanScan(claim: Claim) returns (finished: bool)
      requires Genuine(claim) && workers[claim.worker].phase.Rebuilt?
      modifies this`records, this`workers, this`cleared
      ensures finished <==> Owns(old(records)[claim.job], claim.worker)
                            && !old(records)[claim.job].run.value.pauseRequested
                            && NonePending(old(records)[claim.job].run.value.files)
      ensures View() == AfterFinishClean(old(View()), claim.worker)
    {
      workers := Placed(workers, claim.worker, AtTop);
      var rec := records[claim.job];
      assert records[claim.job := rec] == records;
      if rec.run.None? || rec.run.value.worker != Some(claim.worker) || rec.run.value.pauseRequested { return false; }
      var job, run := rec.job, rec.run.value;
      var pending := SelectPending(run.files);
      if pending.Some? { return false; }
      run := run.(verdict := Some(VerdictClean), currentFile := None);
      job := job.(scanCompleted := true, state := ScanClean);
      run := run.(worker := None, leaseExpiresAt := None, heartbeatAt := None);
      cleared := cleared[claim.job := job.finalParent];
      records := records[claim.job := Record(job, Some(run))];
      return true;
    }

    // ---------- ways a scan is handed back ----------

    method HandleInterruption(claim: Claim, now: Time)
      modifies this`records, this`workers
      ensures records == Updated(old(records), claim.job, rec => Interrupted(rec, claim.worker, now))
      ensures workers == Placed(old(workers), claim.worker, AtTop)
      ensures old(Genuine(claim)) ==> View() == Apply(cfg, old(View()), OnWorker(claim.worker, Interrupt(now)))
    {
      workers := Placed(workers, claim.worker, AtTop);
      if claim.job !in records { return; }
      var rec := records[claim.job];
      if rec.run.None? || rec.run.value.worker != Some(claim.worker) {
        assert records[claim.job := rec] == records;
        return;
      }
      var job, run := rec.job, rec.run.value;
      run := run.(files := Release(run.files, Pending));
      job := job.(state := if run.pauseRequested then ScanPaused else ScanPending);
      run := run.(queuedAt := Some(now), currentFile := None);
      run := run.(worker := None, leaseExpiresAt := None, heartbeatAt := None);
      records := records[claim.job := Record(job, Some(run))];
    }

    method HandleFailure(claim: Claim, now: Time)
      modifies this`records, this`workers
      ensures records == Updated(old(records), claim.job, rec => AttemptFailed(rec, claim.worker, now, cfg.settings))
      ensures workers == Placed(old(workers), claim.worker, AtTop)
      ensures old(Genuine(claim)) ==> View() == Apply(cfg, old(View()), OnWorker(claim.worker, FailAttempt(now)))
    {
      workers := Placed(workers, claim.worker, AtTop);
      if claim.job !in records { return; }
      var rec := records[claim.job];
      if rec.run.None? || rec.run.value.worker != Some(claim.worker) {
        assert records[claim.job := rec] == records;
        return;
      }
      var job, run := rec.job, rec.run.value;
      run := run.(files := Release(run.files, Pending));
      run := run.(failureCount := run.failureCount + 1, currentFile := None);
      run := run.(worker := None, leaseExpiresAt := None, heartbeatAt := None);
      if run.failureCount >= Max(cfg.settings.maxFailures, 1) {
        job := job.(state := Failed, terminal := true);
      } else {
        var delay := Backoff(Max(cfg.settings.retryBaseSeconds, 1), run.failureCount - 1);
        run := run.(nextAttemptAt := Some(now + delay), queuedAt := Some(now));
        job := job.(state := ScanPending, terminal := false);
      }
      records := records[claim.job := Record(job, Some(run))];
    }

    method DeferClaim(claim: Claim, now: Time, retryAfter: int)
      modifies this`records, this`workers
      ensures records == Updated(old(records), claim.job, rec => Deferred(rec, claim.worker, now, retryAfter))
      ensures workers == Placed(old(workers), claim.worker, AtTop)
      ensures old(Genuine(claim)) ==> View() == Apply(cfg, old(View()), OnWorker(claim.worker, Defer(now, retryAfter)))
    {
      hide Release;
      workers := Placed(workers, claim.worker, AtTop);
      if claim.job !in records { return; }
      var rec := records[claim.job];
      if rec.run.None? || rec.run.value.worker != Some(claim.worker) {
        assert records[claim.job := rec] == records;
        return;
      }
      var job, run := rec.job, rec.run.value;
      run := run.(files := Release(run.files, Pending));
      job := job.(state := if run.pauseRequested then ScanPaused else ScanPending, terminal := false);
      run := run.(queuedAt := Some(now));
      run := run.(nextAttemptAt := if retryAfter != 0 then Some(now + Max(retryAfter, 0)) else None);
      run := run.(currentFile := None, worker := None, leaseExpiresAt := None, heartbeatAt := None);
      records := records[claim.job := Record(job, Some(run))];
    }

    method HandlePolicyFailure(claim: Claim)
      modifies this`records, this`workers
      ensures records == Updated(old(records), claim.job, rec => PolicyRefused(rec, claim.worker))
      ensures workers == Placed(old(workers), claim.worker, AtTop)
      ensures old(Genuine(claim)) ==> View() == Apply(cfg, old(View()), OnWorker(claim.worker, Refuse))
    {
      workers := Placed(workers, claim.worker, AtTop);
      if claim.job !in records { return; }
      var rec := records[claim.job];
      if rec.run.None? || rec.run.value.worker != Some(claim.worker) {
        assert records[claim.job := rec] == records;
        return;
      }
      var job, run := rec.job, rec.run.value;
      run := run.(files := Release(run.files, Refused));
      job := job.(state := Failed, terminal := true);
      run := run.(verdict := Some(VerdictError), currentFile := None, nextAttemptAt := None);
      run := run.(worker := None, leaseExpiresAt := None, heartbeatAt := None);
      records := records[claim.job := Record(job, Some(run))];
    }

    // ---------- user requests ----------

    method PauseJob(id: JobId) returns (r: Result<(), Refusal>)
      modifies this`records
      ensures r.Ok? <==> id in old(records) && CanPause(old(records)[id])
      ensures records == Updated(old(records), id, rec => PauseAsked(rec))
    {
      if id !in records { return Err(NotFound); }
      var job := records[id].job;
      assert records[id := records[id]] == records;
      if records[id].run.None? { return Err(NotFound); }
      if job.state != ScanPending && job.state != Scanning { return Err(NotAllowed); }
      var run := records[id].run.value.(pauseRequested := true);
      if job.state == ScanPending { job := job.(state := ScanPaused); }
      records := records[id := Record(job, Some(run))];
      return Ok(());
    }

    method ResumeJob(id: JobId, now: Time) returns (r: Result<(), Refusal>)
      modifies this`records
      ensures r.Ok? <==> id in old(records) && CanResume(old(records)[id])
      ensures records == Updated(old(records), id, rec => Resumed(rec, now))
    {
      if id !in records { return Err(NotFound); }
      var job := records[id].job;
      assert records[id := records[id]] == records;
      if records[id].run.None? { return Err(NotFound); }
      if job.state != ScanPaused { return Err(NotAllowed); }
      var run := records[id].run.value.(pauseRequested := false);
      run := run.(queuedAt := Some(now), nextAttemptAt := None);
      job := job.(state := ScanPending, terminal := false);
      records := records[id := Record(job, Some(run))];
      return Ok(());
    }

    method PrioritizeJob(id: JobId, now: Time) returns (r: Result<(), Refusal>)
      modifies this`records
      ensures r.Ok? <==> id in old(records)
                         && (old(records)[id].job.state == ScanPending || old(records)[id].job.state == Scanning)
      ensures records == Updated(old(records), id, rec => Prioritized(rec, now))
    {
      if id !in records { return Err(NotFound); }
      var job := records[id].job;
      assert records[id := records[id]] == records;
      if job.state != ScanPending && job.state != Scanning { return Err(NotAllowed); }
      var run := NewRun;
      if records[id].run.Some? { run := records[id].run.value; }
      run := run.(priority := Max(run.priority, 100));
      run := run.(queuedAt := Some(now));
      records := records[id := Record(job, Some(run))];
      return Ok(());
    }

    // ---------- retries ----------

    // Clears what a failed job left behind, so that no later phase is entered with old marks.
    method PrepareJobForRetry(job: Job) returns (prepared: Job)
      ensures prepared == PreparedForRetry(job)
    {
      prepared := job.(terminal := false, state := Retrying);
      if !prepared.scanCompleted {
        prepared := prepared.(downloadComplete := false, completionEvent := false);
        prepared := prepared.(contentPath := None);
      }
      if !prepared.promoted { prepared := prepared.(scanCompleted := false); }
      if !prepared.deleted { prepared := prepared.(threat := None); }
    }

    method RetryJob(id: JobId, outcome: RetryOutcome, now: Time) returns (r: Result<(), Refusal>)
      modifies this`records
      ensures r.Ok? ==> id in old(records) && old(records)[id].job.state == Failed
      ensures records == Updated(old(records), id, rec => Retried(rec, outcome, now))
    {
      hide Queued, PreparedForRetry;
      if id !in records { return Err(NotFound); }
      assert records[id := records[id]] == records;
      if records[id].job.state != Failed { return Err(NotAllowed); }
      var job := PrepareJobForRetry(records[id].job);
      match outcome {
        case RetryFailed =>
          job := job.(state := Failed, terminal := true);
          records := records[id := records[id].(job := job)];
          return Err(NotAllowed);
        case HeldBack(s) =>
          records := records[id := records[id].(job := job.(state := s))];
          return Ok(());
        case Readded(s) =>
          records := records[id := records[id].(job := job.(state := s))];
          return Ok(());
        case Attached(complete, contentPath) =>
          AttachRetry(id, job, complete, contentPath, now);
          return Ok(());
      }
    }

    // The job goes on with a torrent qBittorrent still has; a finished download is queued for a scan at once.
    method AttachRetry(id: JobId, prepared: Job, complete: bool, contentPath: Option<Path>, now: Time)
      requires id in records && prepared == PreparedForRetry(records[id].job)
      modifies this`records
      ensures records == Updated(old(records), id, rec => Reattached(rec, complete, contentPath, now))
    {
      hide Queued, PreparedForRetry;
      var job := prepared;
      if contentPath.Some? { job := job.(contentPath := contentPath); }
      var next := StateForRetry(job, complete);
      if next == DownloadComplete { job := job.(downloadComplete := true); }
      job := job.(state := next);
      records := records[id := records[id].(job := job)];
      if next == DownloadComplete { QueueJob(id, now); }
    }

    // ---------- infected jobs ----------

    // One step of the action configured for infected torrents.
    method ActOnInfection(id: JobId, step: InfectedStep)
      requires id in records
      modifies this`records
      ensures records == Updated(old(records), id, rec => InfectedActed(rec, step))
    {
      assert records[id := records[id]] == records;
      var job := records[id].job;
      if !AwaitsInfectedAction(records[id]) { return; }
      match step {
        case Hold => job := job.(state := InfectedHeld, terminal := true);
        case AllocateQuarantine(folder) =>
          if job.quarantinePath.Some? { return; }
          job := job.(quarantinePath := Some(folder));
          job := job.(state := QuarantiningInfected, terminal := false);
        case ConfirmQuarantine(contentPath) =>
          if job.quarantinePath.None? { return; }
          job := job.(contentPath := Some(contentPath));
          job := job.(state := InfectedQuarantined, terminal := true);
        case BeginDelete =>
          if job.state != ScanInfected { return; }
          job := job.(state := DeletingInfected, terminal := false);
        case ConfirmDelete =>
          if job.state == ScanInfected { return; }
          job := job.(deleted := true);
          job := job.(state := InfectedDeleted, terminal := true);
      }
      records := records[id := records[id].(job := job)];
    }

    method UpdateFinalDestination(id: JobId, requested: Path, expected: Path) returns (r: Result<(), Refusal>)
      modifies this`records
      ensures r.Ok? <==> cfg.canon(requested).Some? && id in old(records)
                         && old(records)[id].job.finalParent == expected && Editable(old(records)[id])
      ensures records == if cfg.canon(requested).None? then old(records)
                         else Updated(old(records), id, rec => Edited(rec, expected, cfg.canon(requested).value))
    {
      var destination := cfg.canon(requested);
      if destination.None? { return Err(NotAllowed); }
      if id !in records { return Err(NotFound); }
      assert records[id := records[id]] == records;
      if records[id].job.finalParent != expected || !Editable(records[id]) { return Err(NotAllowed); }
      records := records[id := records[id].(job := records[id].job.(finalParent := destination.value))];
      return Ok(());
    }

    // ---------- promotion ----------

    // The canonical destination and the "promoting" mark, before qBittorrent is asked anything.
    method BeginPromotion(id: JobId) returns (folder: Option<Path>)
      requires id in records
      modifies this`records
      ensures folder == cfg.canon(old(records)[id].job.finalParent)
      ensures records == Updated(old(records), id, rec => Begun(rec, cfg.canon))
    {
      assert records[id := records[id]] == records;
      var job := records[id].job;
      folder := cfg.canon(job.finalParent);
      if folder.None? { return; }
      if job.state == ScanClean {
        if folder.value != job.finalParent { job := job.(finalParent := folder.value); }
        job := job.(state := Promoting, terminal := false);
        records := records[id := records[id].(job := job)];
      }
    }

    method MarkPromoting(id: JobId, folder: Path)
      requires id in records
      modifies this`records
      ensures records == old(records)[id := Canonicalized(old(records)[id], folder)]
    {
      records := records[id := records[id].(job := records[id].job.(finalParent := folder, state := Promoting,
          terminal := false))];
    }

    method MarkPromoted(id: JobId, folder: Path, contentPath: Path, hookAccepts: bool)
      requires id in records
      modifies this`records
      ensures records == old(records)[id := AtDestination(Canonicalized(old(records)[id], folder), contentPath,
          hookAccepts)]
    {
      var job := records[id].job;
      job := job.(finalParent := folder, contentPath := Some(contentPath), promoted := true);
      job := job.(state := Done, terminal := true);
      job := job.(hookQueued := hookAccepts);
      records := records[id := records[id].(job := job)];
    }

    method ReconcileCleanPromotion(id: JobId, torrent: Option<Torrent>, hookAccepts: bool)
      returns (r: Result<Outcome, Failure>)
      requires id in records
      modifies this`records, this`sent
      ensures View() == AfterPromote(cfg, old(View()), id, torrent, hookAccepts)
      ensures r == Reconcile(old(records)[id], cfg.canon, torrent, hookAccepts).1
    {
      ghost var rec := records[id];
      var folder := BeginPromotion(id);
      if folder.None? {
        assert records[id := rec] == records;
        return Err(BadDestination);
      }
      BegunThenMarked(rec, cfg.canon, folder.value);
      hide Canonicalized, AtDestination, Begun;
      if torrent.None? { return Err(TorrentMissing); }
      var t := torrent.value;
      if t.inErrorState { return Err(TorrentInErrorState); }
      if t.moving {
        MarkPromoting(id, folder.value);
        return Ok(Waiting);
      }
      if !t.commonOk { return Err(NotOurs); }
      if !t.paused { return Ok(PauseSent); }
      if t.savePath != folder.value {
        if !t.stagingOk { return Err(NotInStaging); }
        if !t.finalStorageOk { return Err(StorageOffline); }
        sent := sent + [(id, folder.value)];
        MarkPromoting(id, folder.value);
        return Ok(LocationSent(folder.value));
      }
      if !t.destinationOk { return Err(NotAtDestination); }
      MarkPromoted(id, folder.value, t.contentPath, hookAccepts);
      return Ok(Promoted);
    }
  }
}
