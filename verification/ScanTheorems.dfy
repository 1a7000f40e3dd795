// Theorems about every run: what "clean" means, who may act on a scan, and where a clean job goes.
module ScanTheorems {
  import opened Options
  import opened ScanModel
  import opened Promotion
  import opened ScanRuns
  import opened ScanSafety

  predicate Initial(x: World) {
    x.records == map[] && x.workers == map[] && x.used == {} && x.log == {} && x.sent == [] && x.cleared == map[]
  }

  // States xs linked by events es, from an empty database.
  ghost predicate IsRun(cfg: Config, xs: seq<World>, es: seq<Event>) {
    |xs| == |es| + 1 && Initial(xs[0])
    && forall i :: 0 <= i < |es| ==> Enabled(cfg, xs[i], es[i]) && xs[i + 1] == Apply(cfg, xs[i], es[i])
  }

  lemma StepKeepsInv(cfg: Config, x: World, e: Event)
    requires cfg.Valid() && Inv(cfg, x) && Enabled(cfg, x, e)
    ensures Inv(cfg, Apply(cfg, x, e))
  {
    hide RecordInv, HistoryInv, SlotsKept, JobEnabled, JobStep, WorkerStep, SchedulerCycle, RecoverAll,
         CanPrepare, CanStart, AfterPrepare, AfterStart, AfterAnswer, AfterFinishClean, AfterPromote, Fresh;
    match e {
      case Submit(id, job) => SubmitKeepsInv(cfg, x, id, job);
      case OnJob(id, event) => OnJobKeepsInv(cfg, x, id, event);
      case OnWorker(w, step) => OnWorkerKeepsInv(cfg, x, w, step);
      case Delete(id) => DeleteKeepsInv(cfg, x, id);
      case SetSlots(n) => ControlIsFree(cfg, x, Apply(cfg, x, e).control);
      case Recover(now, force) => RecoverKeepsInv(cfg, x, now, force);
      case Schedule(now, order, maintenance, canScan) => ScheduleKeepsInv(cfg, x, now, order, maintenance, canScan);
      case Prepare(w, root, manifest, identity, last) => PrepareKeepsInv(cfg, x, w, root, manifest, identity, last);
      case Start(w, i, stamp, identity, now) => StartKeepsInv(cfg, x, w, i, stamp, identity, now);
      case Answer(w, infected, threat) => AnswerKeepsInv(cfg, x, w, infected, threat);
      case FinishClean(w) => FinishCleanKeepsInv(cfg, x, w);
      case Promote(id, torrent, hookAccepts) => PromoteKeepsInv(cfg, x, id, torrent, hookAccepts);
    }
  }

  // In every state of every run: leases agree with job states, counters equal a recount, rows agree
  // with the run's identity and the log, and no more jobs scan than the hard slot maximum.
  lemma {:induction false} RunsKeepInv(cfg: Config, xs: seq<World>, es: seq<Event>, i: nat)
    requires cfg.Valid() && IsRun(cfg, xs, es) && i < |xs|
    ensures Inv(cfg, xs[i])
  {
    if i > 0 {
      RunsKeepInv(cfg, xs, es, i - 1);
      StepKeepsInv(cfg, xs[i - 1], es[i - 1]);
    } else {
      assert InState(xs[0].records, Scanning) == {};
    }
  }

  // ---------- the clean gate ----------

  lemma {:induction false} ClaimLoopTouches(x: World, order: seq<JobId>, available: int, large: int, now: Time,
                                            cfg: Settings, id: JobId)
    requires Claimable(x.records, order)
    ensures var y := ClaimLoop(x, order, available, large, now, cfg).0;
            y == x.(records := y.records, workers := y.workers, nextWorker := y.nextWorker)
            && y.records.Keys == x.records.Keys && y.nextWorker >= x.nextWorker
            && (forall w <- x.workers :: w < x.nextWorker ==> w in y.workers && y.workers[w] == x.workers[w])
            && (id in x.records ==>
                  y.records[id] == x.records[id]
                  || (x.records[id].job.state == ScanPending && ClaimedByNew(y.records[id], x.nextWorker)))
    decreases |order|
  {
    hide IsLarge, Claimed, ClaimedByNew;
    if order != [] && available > 0 {
      var first, rest := order[0], order[1..];
      assert first in order && first !in rest;
      ClaimedIsByNew(x.records[first], x.nextWorker, now, cfg);
      if IsLarge(x.records[first], cfg) && large >= cfg.MaxLarge() {
        ClaimLoopTouches(x, rest, available, large, now, cfg, id);
      } else {
        var y := ClaimOne(x, first, now, cfg);
        ClaimLoopTouches(y, rest, available - 1, if IsLarge(x.records[first], cfg) then large + 1 else large, now,
            cfg, id);
      }
    }
  }

  predicate ClaimedByNew(rec: Record, next: WorkerId) {
    rec.job.state == Scanning && RunOf(rec).worker.Some? && RunOf(rec).worker.value >= next
  }

  lemma ClaimedIsByNew(rec: Record, w: WorkerId, now: Time, cfg: Settings)
    requires rec.run.Some?
    ensures ClaimedByNew(Claimed(rec, w, now, cfg), w)
    ensures forall later :: ClaimedByNew(later, w + 1) ==> ClaimedByNew(later, w)
  {}

  // What a scheduler cycle can do to one job: recover it, or recover it and hand it to a new worker.
  lemma ScheduleTouches(x: World, order: seq<JobId>, now: Time, maintenance: bool, canScan: bool, cfg: Settings,
      id: JobId)
    requires CandidateOrder(RecoverAll(x.records, now, false), order, now)
    ensures var y := SchedulerCycle(x, order, now, maintenance, canScan, cfg).0;
            y == x.(records := y.records, control := y.control, workers := y.workers, nextWorker := y.nextWorker)
            && y.records.Keys == x.records.Keys && y.nextWorker >= x.nextWorker
            && (forall w <- x.workers :: w < x.nextWorker ==> w in y.workers && y.workers[w] == x.workers[w])
            && (id in x.records ==>
                  var rec := Recovered(x.records[id], now, false);
                  y.records[id] == rec || (rec.job.state == ScanPending && ClaimedByNew(y.records[id], x.nextWorker)))
  {
    hide Active, ActiveLarge, RelaxedControl, ClampedControl, Recovered, Candidate, ClaimLoop;
    var recovered := RecoverAll(x.records, now, false);
    var x1 := x.(records := recovered, control := ClampedControl(x.control, cfg));
    if !maintenance && canScan {
      var x2 := x1.(control := RelaxedControl(x1.control, x1.records, cfg));
      var available := Max(x2.control.slots - |Active(x2.records, now)|, 0);
      if available != 0 {
        CandidatesAreClaimable(recovered, order, now);
        ClaimLoopTouches(x2, order, available, |ActiveLarge(x2.records, now, cfg)|, now, cfg, id);
      }
    }
  }

  lemma CandidatesAreClaimable(records: map<JobId, Record>, order: seq<JobId>, now: Time)
    requires CandidateOrder(records, order, now)
    ensures Claimable(records, order)
  {
  }

  // What one step does to one record that stays.
  function RecordAfter(cfg: Config, x: World, e: Event, id: JobId): Record
    requires Enabled(cfg, x, e) && id in x.records
  {
    var rec := x.records[id];
    match e
    case Submit(j, job) => if j == id then Record(job, None) else rec
    case OnJob(j, event) => if j == id then JobStep(rec, event) else rec
    case OnWorker(w, step) => if x.workers[w].job == id then WorkerStep(rec, w, step, cfg.settings) else rec
    case Delete(_) => rec
    case SetSlots(_) => rec
    case Recover(now, force) => Recovered(rec, now, force)
    case Schedule(now, order, maintenance, canScan) =>
      var y := SchedulerCycle(x, order, now, maintenance, canScan, cfg.settings).0;
      if id in y.records then y.records[id] else rec
    case Prepare(w, root, manifest, identity, _) =>
      if x.workers[w].job == id then Prepared(rec, w, root, manifest, identity) else rec
    case Start(w, i, stamp, identity, now) =>
      if x.workers[w].job == id then Started(rec, w, i, stamp, identity, now, cfg.settings) else rec
    case Answer(w, infected, threat) =>
      if x.workers[w].job == id
      then Scanned(rec, w, x.workers[w].phase.index, infected, threat, x.workers[w].phase.identity) else rec
    case FinishClean(w) => if x.workers[w].job == id then FinishedClean(rec, w) else rec
    case Promote(j, t, hook) => if j == id then Reconcile(rec, cfg.canon, t, hook).0 else rec
  }

  lemma AppliedTo(cfg: Config, x: World, e: Event, id: JobId)
    requires Enabled(cfg, x, e) && id in x.records && id in Apply(cfg, x, e).records
    ensures Apply(cfg, x, e).records[id] == RecordAfter(cfg, x, e, id)
  {
    hide JobStep, WorkerStep, Recovered, Prepared, Started, Scanned, FinishedClean, Reconcile, SchedulerCycle,
         CanPrepare, CanStart, CandidateOrder;
  }

  // Nothing but a worker's final step moves a job onto the clean side.
  lemma OnlyFinishCleanClears(cfg: Config, x: World, e: Event, id: JobId)
    requires Inv(cfg, x) && Enabled(cfg, x, e) && id in x.records && id in Apply(cfg, x, e).records
    requires !CleanSide(x.records[id].job.state) && CleanSide(Apply(cfg, x, e).records[id].job.state)
    ensures e.FinishClean? && x.workers[e.w].job == id && FinishedClean(x.records[id], e.w) != x.records[id]
  {
    hide RecordOk, Backed, OwnerAgrees, FolderAgrees, JobStep, WorkerStep, Recovered, Prepared, Started, Scanned,
         FinishedClean, SchedulerCycle, CanPrepare, CanStart, Reconcile, Apply, CandidateOrder;
    AppliedTo(cfg, x, e, id);
    assert RecordInv(cfg, x, id);
    var rec := x.records[id];
    match e {
      case OnJob(j, event) => if j == id { JobStepOk(rec, event); }
      case OnWorker(w, step) => if x.workers[w].job == id { WorkerKeepsCleanSide(cfg, x, w, step); }
      case Recover(now, force) => RecoveredOk(rec, now, force);
      case Schedule(now, order, maintenance, canScan) =>
        ScheduleTouches(x, order, now, maintenance, canScan, cfg.settings, id);
        RecoveredOk(rec, now, false);
      case Prepare(w, root, manifest, identity, last) =>
        if x.workers[w].job == id { PreparedKeepsJob(rec, w, root, manifest, identity); }
      case Start(w, i, stamp, identity, now) =>
        if x.workers[w].job == id { StartedKeepsJob(rec, w, i, stamp, identity, now, cfg.settings); }
      case Answer(w, infected, threat) =>
        if x.workers[w].job == id {
          ScannedKeepsCleanSide(rec, w, x.workers[w].phase.index, infected, threat, x.workers[w].phase.identity);
        }
      case _ =>
    }
  }

  lemma WorkerKeepsCleanSide(cfg: Config, x: World, w: WorkerId, e: WorkerEvent)
    requires Inv(cfg, x) && Live(x, w) && WorkerEnabled(x.workers[w].phase, e)
    ensures var rec := OfWorker(x, w);
            CleanSide(WorkerStep(rec, w, e, cfg.settings).job.state) == CleanSide(rec.job.state)
  {
    hide RecordOk, Backed, FolderAgrees, WorkerStep;
    assert RecordInv(cfg, x, x.workers[w].job);
    WorkerStepOk(OfWorker(x, w), w, e, cfg.settings);
  }

  lemma PreparedKeepsJob(rec: Record, w: WorkerId, root: Path, manifest: seq<ManifestEntry>, identity: Identity)
    ensures Prepared(rec, w, root, manifest, identity).job == rec.job
    ensures RunOf(Prepared(rec, w, root, manifest, identity)).worker == RunOf(rec).worker
  {
  }

  lemma StartedKeepsJob(rec: Record, w: WorkerId, i: nat, stamp: Fingerprint, identity: Identity, now: Time,
      cfg: Settings)
    ensures Started(rec, w, i, stamp, identity, now, cfg).job == rec.job
    ensures RunOf(Started(rec, w, i, stamp, identity, now, cfg)).worker == RunOf(rec).worker
  {
  }

  lemma ScannedKeepsCleanSide(rec: Record, w: WorkerId, i: nat, infected: bool, threat: string, identity: Identity)
    ensures var s := Scanned(rec, w, i, infected, threat, identity).job.state; s == rec.job.state || s == ScanInfected
    ensures var r := RunOf(Scanned(rec, w, i, infected, threat, identity)).worker; r.None? || r == RunOf(rec).worker
  {
  }

  // A worker that holds a rebuilt manifest made it with its own last rebuild.
  lemma {:induction false} RebuiltWasPrepared(cfg: Config, xs: seq<World>, es: seq<Event>, i: nat, w: WorkerId)
    returns (k: nat)
    requires IsRun(cfg, xs, es) && i < |xs| && cfg.Valid()
    requires w in xs[i].workers && xs[i].workers[w].phase.Rebuilt?
    ensures k < i && es[k].Prepare? && es[k].w == w && es[k].last
    ensures xs[i].workers[w].phase == Rebuilt(es[k].root, es[k].manifest)
    ensures forall j :: k < j <= i ==> w in xs[j].workers && xs[j].workers[w] == xs[i].workers[w]
  {
    hide Apply, Enabled, Inv;
    assert i > 0;
    RunsKeepInv(cfg, xs, es, i - 1);
    var x, e := xs[i - 1], es[i - 1];
    if w in x.workers && x.workers[w] == xs[i].workers[w] && !(e.Prepare? && e.w == w) {
      k := RebuiltWasPrepared(cfg, xs, es, i - 1, w);
    } else {
      k := i - 1;
      PhaseSource(cfg, x, e, w);
    }
  }

  lemma PhaseSource(cfg: Config, x: World, e: Event, w: WorkerId)
    requires Inv(cfg, x) && Enabled(cfg, x, e) && w in Apply(cfg, x, e).workers
    requires Apply(cfg, x, e).workers[w].phase.Rebuilt?
    ensures (w in x.workers && x.workers[w] == Apply(cfg, x, e).workers[w])
            || (e.Prepare? && e.w == w && e.last && Apply(cfg, x, e).workers[w].phase == Rebuilt(e.root, e.manifest))
    ensures e.Prepare? && e.w == w ==> e.last && Apply(cfg, x, e).workers[w].phase == Rebuilt(e.root, e.manifest)
  {
    hide RecordInv, JobStep, WorkerStep, Recovered, Prepared, Started, Scanned, FinishedClean, SchedulerCycle,
         Reconcile, CanPrepare, CanStart, WorkerEnabled;
    if e.Schedule? {
      ScheduleWorkers(x, e.order, e.now, e.maintenance, e.canScan, cfg.settings, w);
    }
  }

  lemma {:induction false} ClaimLoopWorkers(x: World, order: seq<JobId>, available: int, large: int, now: Time,
                                            cfg: Settings, w: WorkerId)
    requires Claimable(x.records, order)
    ensures var y := ClaimLoop(x, order, available, large, now, cfg).0;
            w in y.workers ==> (w in x.workers && y.workers[w] == x.workers[w]) || y.workers[w].phase == AtTop
    decreases |order|
  {
    hide IsLarge, Claimed;
    if order != [] && available > 0 {
      var first, rest := order[0], order[1..];
      assert first in order && first !in rest;
      if IsLarge(x.records[first], cfg) && large >= cfg.MaxLarge() {
        ClaimLoopWorkers(x, rest, available, large, now, cfg, w);
      } else {
        var y := ClaimOne(x, first, now, cfg);
        assert Claimable(y.records, rest);
        ClaimLoopWorkers(y, rest, available - 1, if IsLarge(x.records[first], cfg) then large + 1 else large, now,
            cfg, w);
      }
    }
  }

  lemma ScheduleWorkers(x: World, order: seq<JobId>, now: Time, maintenance: bool, canScan: bool, cfg: Settings,
      w: WorkerId)
    requires CandidateOrder(RecoverAll(x.records, now, false), order, now)
    ensures var y := SchedulerCycle(x, order, now, maintenance, canScan, cfg).0;
            w in y.workers ==> (w in x.workers && y.workers[w] == x.workers[w]) || y.workers[w].phase == AtTop
  {
    hide Active, ActiveLarge, RelaxedControl, ClampedControl, Recovered, Candidate, ClaimLoop;
    var recovered := RecoverAll(x.records, now, false);
    var x1 := x.(records := recovered, control := ClampedControl(x.control, cfg));
    if !maintenance && canScan {
      var x2 := x1.(control := RelaxedControl(x1.control, x1.records, cfg));
      var available := Max(x2.control.slots - |Active(x2.records, now)|, 0);
      if available != 0 {
        CandidatesAreClaimable(recovered, order, now);
        ClaimLoopWorkers(x2, order, available, |ActiveLarge(x2.records, now, cfg)|, now, cfg, w);
      }
    }
  }

  // A file of the manifest was scanned as it is, under the identity the run ends with, and not infected.
  predicate Proven(id: JobId, root: Path, e: ManifestEntry, identity: Identity, log: set<ScanEvent>) {
    ScanEvent(id, root, e.path, e.stamp, identity, false) in log
  }

  // The clean gate.  Whenever a job reaches the clean side, its worker had just rebuilt the manifest
  // (event k, and nothing of the worker's own after it), the rows are that manifest, all are clean,
  // and the scanner had answered "not infected" for every entry under the run's engine and policy.
  lemma CleanGate(cfg: Config, xs: seq<World>, es: seq<Event>, i: nat, id: JobId)
    returns (k: nat, identity: Identity)
    requires cfg.Valid() && IsRun(cfg, xs, es) && i < |es|
    requires id in xs[i].records && id in xs[i + 1].records
    requires !CleanSide(xs[i].records[id].job.state) && CleanSide(xs[i + 1].records[id].job.state)
    ensures k < i && es[k].Prepare? && es[k].last && es[i] == FinishClean(es[k].w)
    ensures forall j :: k < j <= i ==> es[k].w in xs[j].workers
                                       && xs[j].workers[es[k].w] == Worker(id, Rebuilt(es[k].root, es[k].manifest))
    ensures var run := RunOf(xs[i + 1].records[id]);
            RowsMatch(run.files, es[k].manifest) && run.rootPath == Some(es[k].root)
            && run.identity == Some(identity) && run.verdict == Some(VerdictClean)
            && (forall row <- run.files :: row.status == Clean)
            && forall e <- es[k].manifest :: Proven(id, es[k].root, e, identity, xs[i].log)
  {
    RunsKeepInv(cfg, xs, es, i);
    OnlyFinishCleanClears(cfg, xs[i], es[i], id);
    var w := es[i].w;
    k := RebuiltWasPrepared(cfg, xs, es, i, w);
    identity := FinishedIsProven(cfg, xs[i], w, es[k].root, es[k].manifest);
  }

  lemma FinishedIsProven(cfg: Config, x: World, w: WorkerId, root: Path, manifest: seq<ManifestEntry>)
    returns (identity: Identity)
    requires Inv(cfg, x) && Live(x, w) && x.workers[w].phase == Rebuilt(root, manifest)
    requires FinishedClean(OfWorker(x, w), w) != OfWorker(x, w)
    ensures var id := x.workers[w].job;
            var run := RunOf(FinishedClean(OfWorker(x, w), w));
            RowsMatch(run.files, manifest) && run.rootPath == Some(root)
            && run.identity == Some(identity) && run.verdict == Some(VerdictClean)
            && (forall row <- run.files :: row.status == Clean)
            && forall e <- manifest :: Proven(id, root, e, identity, x.log)
  {
    hide CountersAgree, VerdictAgrees, MarksAgree, FolderAgrees;
    var id := x.workers[w].job;
    assert RecordInv(cfg, x, id);
    var run := RunOf(x.records[id]);
    assert run.worker == Some(w) && PhaseAgrees(run, Rebuilt(root, manifest));
    identity := run.identity.value;
    forall e <- manifest
      ensures Proven(id, root, e, identity, x.log)
    {
      var n :| 0 <= n < |manifest| && manifest[n] == e;
      assert run.files[n] in run.files;
    }
  }

  // ---------- a lease once lost ----------

  predicate HoldsLease(x: World, w: WorkerId) {
    Live(x, w) && Owns(OfWorker(x, w), w)
  }

  predicate ByWorker(e: Event, w: WorkerId) {
    match e
    case OnWorker(v, _) => v == w
    case Prepare(v, _, _, _, _) => v == w
    case Start(v, _, _, _, _) => v == w
    case Answer(v, _, _) => v == w
    case FinishClean(v) => v == w
    case _ => false
  }

  // A worker without its lease renews nothing and records nothing: not a heartbeat, not a result,
  // not a verdict.  Only the scanner's own log of answers can grow.
  lemma WithoutLeaseNothingIsRecorded(cfg: Config, x: World, e: Event, w: WorkerId)
    requires Enabled(cfg, x, e) && ByWorker(e, w) && !HoldsLease(x, w)
    ensures var y := Apply(cfg, x, e);
            y.records == x.records && y.cleared == x.cleared && y.sent == x.sent && y.control == x.control
  {
    var rec := OfWorker(x, w);
    assert x.records[x.workers[w].job := rec] == x.records;
  }

  lemma LostLeaseStaysLostForAStep(cfg: Config, x: World, e: Event, w: WorkerId)
    requires Inv(cfg, x) && Enabled(cfg, x, e)
    requires w in x.workers && !HoldsLease(x, w)
    ensures var y := Apply(cfg, x, e);
            w in y.workers && y.workers[w].job == x.workers[w].job && !HoldsLease(y, w)
  {
    hide RecordInv, RecordOk, JobStep, WorkerStep, Recovered, Prepared, Started, Scanned, FinishedClean,
         SchedulerCycle, Reconcile, CanPrepare, CanStart, WorkerEnabled, JobEnabled;
    var id := x.workers[w].job;
    assert w < x.nextWorker && id in x.used;
    if e.Schedule? {
      ScheduleTouches(x, e.order, e.now, e.maintenance, e.canScan, cfg.settings, id);
    }
    if id in x.records {
      if ByWorker(e, w) {
        WithoutLeaseNothingIsRecorded(cfg, x, e, w);
      } else if id in Apply(cfg, x, e).records {
        HolderAfterStep(cfg, x, e, id);
      }
    }
  }

  // A step leaves a run with its holder, with nobody, or with a worker that did not exist before.
  lemma HolderAfterStep(cfg: Config, x: World, e: Event, id: JobId)
    requires Inv(cfg, x) && Enabled(cfg, x, e) && id in x.records && id in Apply(cfg, x, e).records
    ensures var v := RunOf(Apply(cfg, x, e).records[id]).worker;
            v.None? || v == RunOf(x.records[id]).worker || v.value >= x.nextWorker
  {
    hide RecordOk, Backed, OwnerAgrees, FolderAgrees, JobStep, WorkerStep, Recovered, Prepared, Started, Scanned,
         SchedulerCycle, CanPrepare, CanStart, Reconcile, FinishedClean, Apply, CandidateOrder;
    AppliedTo(cfg, x, e, id);
    assert RecordInv(cfg, x, id);
    var rec := x.records[id];
    match e {
      case OnJob(j, event) => if j == id { JobStepOk(rec, event); }
      case OnWorker(w, step) => if x.workers[w].job == id { WorkerKeepsHolder(rec, w, step, cfg.settings); }
      case Recover(now, force) => RecoveredOk(rec, now, force);
      case Schedule(now, order, maintenance, canScan) =>
        ScheduleTouches(x, order, now, maintenance, canScan, cfg.settings, id);
        RecoveredOk(rec, now, false);
      case Prepare(w, root, manifest, identity, last) =>
        if x.workers[w].job == id { PreparedKeepsJob(rec, w, root, manifest, identity); }
      case Start(w, i, stamp, identity, now) =>
        if x.workers[w].job == id { StartedKeepsJob(rec, w, i, stamp, identity, now, cfg.settings); }
      case Answer(w, infected, threat) =>
        if x.workers[w].job == id {
          ScannedKeepsCleanSide(rec, w, x.workers[w].phase.index, infected, threat, x.workers[w].phase.identity);
        }
      case FinishClean(w) => if x.workers[w].job == id { FinishedCleanHolder(rec, w); }
      case Promote(j, t, hook) => if j == id { ReconcileKeepsRun(rec, cfg.canon, t, hook); }
      case _ =>
    }
  }

  lemma WorkerKeepsHolder(rec: Record, w: WorkerId, e: WorkerEvent, cfg: Settings)
    ensures var v := RunOf(WorkerStep(rec, w, e, cfg)).worker; v.None? || v == RunOf(rec).worker
  {
  }

  lemma FinishedCleanHolder(rec: Record, w: WorkerId)
    ensures var v := RunOf(FinishedClean(rec, w)).worker; v.None? || v == RunOf(rec).worker
  {
  }

  lemma ReconcileKeepsRun(rec: Record, canon: Path -> Option<Path>, t: Option<Torrent>, hook: bool)
    ensures Reconcile(rec, canon, t, hook).0.run == rec.run
  {
  }

  // Over a whole run: a worker that has lost its lease never holds one again.
  lemma {:induction false} LostLeaseStaysLost(cfg: Config, xs: seq<World>, es: seq<Event>, i: nat, k: nat, w: WorkerId)
    requires cfg.Valid() && IsRun(cfg, xs, es) && i <= k < |xs|
    requires w in xs[i].workers && !HoldsLease(xs[i], w)
    ensures w in xs[k].workers && xs[k].workers[w].job == xs[i].workers[w].job && !HoldsLease(xs[k], w)
  {
    hide Apply, Enabled, Inv, HoldsLease;
    if i < k {
      LostLeaseStaysLost(cfg, xs, es, i, k - 1, w);
      RunsKeepInv(cfg, xs, es, k - 1);
      LostLeaseStaysLostForAStep(cfg, xs[k - 1], es[k - 1], w);
    }
  }

  lemma UsedGrowsInAStep(cfg: Config, x: World, e: Event)
    requires Enabled(cfg, x, e)
    ensures x.used <= Apply(cfg, x, e).used
  {
    if e.Schedule? {
      ScheduleTouches(x, e.order, e.now, e.maintenance, e.canScan, cfg.settings, 0);
    }
  }

  lemma {:induction false} UsedGrows(cfg: Config, xs: seq<World>, es: seq<Event>, i: nat, k: nat)
    requires IsRun(cfg, xs, es) && i <= k < |xs|
    ensures xs[i].used <= xs[k].used
  {
    hide Apply, Enabled;
    if i < k {
      UsedGrows(cfg, xs, es, i, k - 1);
      UsedGrowsInAStep(cfg, xs[k - 1], es[k - 1]);
    }
  }

  // ---------- promotion ----------

  lemma InfectedStaysForAStep(cfg: Config, x: World, e: Event, id: JobId)
    requires Inv(cfg, x) && Enabled(cfg, x, e) && id in x.records && id in Apply(cfg, x, e).records
    requires InfectedSide(x.records[id].job.state)
    ensures InfectedSide(Apply(cfg, x, e).records[id].job.state)
  {
    hide BooksAgree, Backed, OwnerAgrees, FolderAgrees, VerdictAgrees, Recovered, NoneInProgress, InfectedSide,
         SchedulerCycle, CanPrepare, CanStart, Reconcile, Prepared, Started, Scanned, WorkerStep, FinishedClean,
         JobStep, Apply, CandidateOrder;
    AppliedTo(cfg, x, e, id);
    assert RecordInv(cfg, x, id);
    var rec := x.records[id];
    InfectedHoldsNothing(rec);
    match e {
      case OnJob(j, event) => if j == id { InfectedJobStep(rec, event); }
      case Recover(now, force) => RecoveredKeepsInfected(rec, now, force);
      case Schedule(now, order, maintenance, canScan) =>
        ScheduleTouches(x, order, now, maintenance, canScan, cfg.settings, id);
        RecoveredKeepsInfected(rec, now, false);
      case OnWorker(w, step) => if x.workers[w].job == id { WithoutLeaseNothingIsRecorded(cfg, x, e, w); }
      case Prepare(w, _, _, _, _) => if x.workers[w].job == id { WithoutLeaseNothingIsRecorded(cfg, x, e, w); }
      case Start(w, _, _, _, _) => if x.workers[w].job == id { WithoutLeaseNothingIsRecorded(cfg, x, e, w); }
      case Answer(w, _, _) => if x.workers[w].job == id { WithoutLeaseNothingIsRecorded(cfg, x, e, w); }
      case FinishClean(w) => if x.workers[w].job == id { WithoutLeaseNothingIsRecorded(cfg, x, e, w); }
      case _ =>
    }
  }

  lemma InfectedHoldsNothing(rec: Record)
    requires RecordOk(rec) && InfectedSide(rec.job.state)
    ensures RunOf(rec).worker.None? && !CleanPass(rec) && rec.job.state != ScanPending
  {
  }

  lemma InfectedJobStep(rec: Record, e: JobEvent)
    requires InfectedSide(rec.job.state) && JobEnabled(rec, e)
    ensures InfectedSide(JobStep(rec, e).job.state)
  {
    hide Queued, Reattached, PreparedForRetry, Editable;
    match e {
      case ActOnInfection(step) =>
      case _ =>
    }
  }

  lemma RecoveredKeepsInfected(rec: Record, now: Time, force: bool)
    requires InfectedSide(rec.job.state)
    ensures Recovered(rec, now, force).job.state == rec.job.state
  {
  }

  // An infected job stays on the infected side for as long as it is known: it is never promoted.
  lemma {:induction false} InfectedIsNeverPromoted(cfg: Config, xs: seq<World>, es: seq<Event>, i: nat, k: nat,
                                                   id: JobId)
    requires cfg.Valid() && IsRun(cfg, xs, es) && i <= k < |xs|
    requires id in xs[i].records && InfectedSide(xs[i].records[id].job.state)
    ensures id in xs[k].records ==> InfectedSide(xs[k].records[id].job.state)
  {
    hide Apply, Enabled, RecordInv, InfectedSide;
    if i < k && id in xs[k].records {
      InfectedIsNeverPromoted(cfg, xs, es, i, k - 1, id);
      RunsKeepInv(cfg, xs, es, i);
      RunsKeepInv(cfg, xs, es, k - 1);
      UsedGrows(cfg, xs, es, i, k - 1);
      KnownBefore(cfg, xs[k - 1], es[k - 1], id);
      InfectedStaysForAStep(cfg, xs[k - 1], es[k - 1], id);
    }
  }

  // A job identifier that was ever used names a job only if it did so before the step.
  lemma KnownBefore(cfg: Config, x: World, e: Event, id: JobId)
    requires Inv(cfg, x) && Enabled(cfg, x, e) && id in x.used && id in Apply(cfg, x, e).records
    ensures id in x.records
  {
    hide RecordInv;
    if e.Schedule? {
      ScheduleTouches(x, e.order, e.now, e.maintenance, e.canScan, cfg.settings, id);
    }
  }

  // Every job on the clean side has a clean verdict, and an "error" job cannot be retried into it.
  lemma CleanSideHasCleanVerdict(cfg: Config, xs: seq<World>, es: seq<Event>, i: nat, id: JobId)
    requires cfg.Valid() && IsRun(cfg, xs, es) && i < |xs| && id in xs[i].records
    ensures CleanSide(xs[i].records[id].job.state) ==> RunOf(xs[i].records[id]).verdict == Some(VerdictClean)
    ensures xs[i].records[id].job.state == Failed ==>
              forall o, now :: RetryOutcomePossible(o) ==>
                var s := Retried(xs[i].records[id], o, now).job.state; !CleanSide(s) && !InfectedSide(s)
  {
    hide Apply, Enabled, Backed, OwnerAgrees, FolderAgrees, BooksAgree, Retried, NoneInProgress;
    RunsKeepInv(cfg, xs, es, i);
    assert RecordInv(cfg, xs[i], id);
    var rec := xs[i].records[id];
    if rec.job.state == Failed {
      forall o, now | RetryOutcomePossible(o)
        ensures !CleanSide(Retried(rec, o, now).job.state) && !InfectedSide(Retried(rec, o, now).job.state)
      {
        RetryStaysBeforeScan(rec, o, now);
      }
    }
  }

  // The cleared folder of a job is the destination it had in the step that recorded its clean verdict.
  lemma {:induction false} ClearedWhenFinished(cfg: Config, xs: seq<World>, es: seq<Event>, i: nat, id: JobId)
    returns (k: nat)
    requires cfg.Valid() && IsRun(cfg, xs, es) && i < |xs| && id in xs[i].cleared
    ensures k < i && es[k].FinishClean? && id in xs[k].records && xs[k].workers[es[k].w].job == id
    ensures xs[k + 1].records[id].job.state == ScanClean
    ensures xs[i].cleared[id] == xs[k].records[id].job.finalParent
  {
    hide Apply, Enabled, Inv;
    assert i > 0;
    RunsKeepInv(cfg, xs, es, i - 1);
    var x, e := xs[i - 1], es[i - 1];
    if id in x.cleared {
      ClearedIsKept(cfg, x, e, id);
      k := ClearedWhenFinished(cfg, xs, es, i - 1, id);
    } else {
      k := i - 1;
      ClearedByFinish(cfg, x, e, id);
    }
  }

  lemma ClearedIsKept(cfg: Config, x: World, e: Event, id: JobId)
    requires Inv(cfg, x) && Enabled(cfg, x, e) && id in x.cleared
    ensures var y := Apply(cfg, x, e); id in y.cleared && y.cleared[id] == x.cleared[id]
  {
    hide RecordOk, Backed, OwnerAgrees;
    if e.Schedule? {
      ScheduleTouches(x, e.order, e.now, e.maintenance, e.canScan, cfg.settings, id);
    } else if e.FinishClean? && x.workers[e.w].job == id {
      assert RecordInv(cfg, x, id);
      FinishNeedsScanning(x.records[id], e.w);
    }
  }

  lemma FinishNeedsScanning(rec: Record, w: WorkerId)
    requires RecordOk(rec) && CleanSide(rec.job.state)
    ensures FinishedClean(rec, w) == rec
  {
  }

  lemma ClearedByFinish(cfg: Config, x: World, e: Event, id: JobId)
    requires Inv(cfg, x) && Enabled(cfg, x, e) && id !in x.cleared && id in Apply(cfg, x, e).cleared
    ensures e.FinishClean? && id in x.records && x.workers[e.w].job == id
    ensures var y := Apply(cfg, x, e);
            id in y.records && y.records[id].job.state == ScanClean && y.cleared[id] == x.records[id].job.finalParent
  {
    hide RecordInv;
    if e.Schedule? {
      ScheduleTouches(x, e.order, e.now, e.maintenance, e.canScan, cfg.settings, id);
    }
  }

  // The folder sent to qBittorrent is the canonical destination the job had when it was cleared,
  // however often its destination was edited before.
  lemma SentFolderIsTheClearedOne(cfg: Config, xs: seq<World>, es: seq<Event>, i: nat, id: JobId, folder: Path)
    returns (k: nat)
    requires cfg.Valid() && IsRun(cfg, xs, es) && i < |xs| && (id, folder) in xs[i].sent
    ensures k < i && es[k].FinishClean? && id in xs[k].records
    ensures xs[k + 1].records[id].job.state == ScanClean
    ensures cfg.canon(xs[k].records[id].job.finalParent) == Some(folder)
  {
    RunsKeepInv(cfg, xs, es, i);
    assert SentToClearedFolder(cfg, (id, folder), xs[i].cleared);
    k := ClearedWhenFinished(cfg, xs, es, i, id);
  }
}
