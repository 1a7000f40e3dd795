// How long a worker keeps its scan: exactly until the first recovery that is late, or one that is forced.
module ScanLeases {
  import opened Options
  import opened ScanModel
  import opened Promotion
  import opened ScanRuns
  import opened ScanSafety
  import opened ScanTheorems
  import opened ScanLimits
  import opened ScanOutcomes

  // A lease taken at time t has not run out.
  predicate InTime(now: Time, t: Time, s: Settings) {
    now < t + s.leaseSeconds || now < t + 3 * s.heartbeatSeconds || now < t + 30
  }

  // The end of a lease taken at time t.
  predicate EndsLease(end: Time, t: Time, s: Settings) {
    InTime(end - 1, t, s) && !InTime(end, t, s)
  }

  // In this step the worker claims its job at time t, or starts a file or beats at time t in charge of it.
  predicate Renews(x: World, e: Event, y: World, w: WorkerId, t: Time) {
    (e.Schedule? && e.now == t && !HoldsLease(x, w) && HoldsLease(y, w))
    || (e.Start? && e.w == w && e.now == t && HoldsLease(x, w))
    || (e.OnWorker? && e.w == w && e.step == Heartbeat(t) && HoldsLease(x, w))
  }

  // Nothing that renews the lease of this worker or ends its scan, but for recoveries in the normal course.
  predicate Quiet(e: Event, w: WorkerId, id: JobId) {
    (!ByWorker(e, w) || e.Prepare? || (e.Answer? && !e.infected)) && !(e.Recover? && e.force) && e != Delete(id)
  }

  predicate Recovers(e: Event) { (e.Recover? || e.Schedule?) }

  function RecoveryTime(e: Event): Time
    requires Recovers(e)
  {
    e.now
  }

  function EndOf(x: World, w: WorkerId): Option<Time>
    requires HoldsLease(x, w)
  {
    RunOf(OfWorker(x, w)).leaseExpiresAt
  }

  // ---------- taking and renewing a lease ----------

  lemma LeaseFormula(cfg: Settings, t: Time)
    ensures EndsLease(t + cfg.Lease(), t, cfg)
  {}

  lemma {:induction false} ClaimedLease(x: World, order: seq<JobId>, available: int, large: int, now: Time,
                                        cfg: Settings, id: JobId)
    requires Claimable(x.records, order) && id in x.records
    ensures var y := ClaimLoop(x, order, available, large, now, cfg).0;
            id in y.records
            && (y.records[id] == x.records[id]
                || (RunOf(y.records[id]).leaseExpiresAt.Some?
                    && EndsLease(RunOf(y.records[id]).leaseExpiresAt.value, now, cfg)))
    decreases |order|
  {
    hide IsLarge, EndsLease;
    if order != [] && available > 0 {
      var first, rest := order[0], order[1..];
      assert order == [first] + rest && first in order && first !in rest;
      if IsLarge(x.records[first], cfg) && large >= cfg.MaxLarge() {
        ClaimedLease(x, rest, available, large, now, cfg, id);
      } else {
        var y := ClaimOne(x, first, now, cfg);
        var larger := if IsLarge(x.records[first], cfg) then large + 1 else large;
        StillClaimable(x, first, rest, now, cfg);
        ClaimedLease(y, rest, available - 1, larger, now, cfg, id);
        if id == first {
          LeaseFormula(cfg, now);
          ClaimLoopSkips(y, rest, available - 1, larger, now, cfg, id);
        }
      }
    }
  }

  lemma ScheduledLease(x: World, order: seq<JobId>, now: Time, maintenance: bool, canScan: bool, cfg: Settings,
      id: JobId)
    requires CandidateOrder(RecoverAll(x.records, now, false), order, now) && id in x.records
    ensures var y := SchedulerCycle(x, order, now, maintenance, canScan, cfg).0;
            id in y.records
            && (y.records[id] == Recovered(x.records[id], now, false)
                || (RunOf(y.records[id]).leaseExpiresAt.Some?
                    && EndsLease(RunOf(y.records[id]).leaseExpiresAt.value, now, cfg)))
  {
    hide Active, ActiveLarge, RelaxedControl, ClampedControl, Recovered, Candidate, ClaimLoop, EndsLease;
    var recovered := RecoverAll(x.records, now, false);
    var x1 := x.(records := recovered, control := ClampedControl(x.control, cfg));
    if !maintenance && canScan {
      var x2 := x1.(control := RelaxedControl(x1.control, x1.records, cfg));
      var available := Max(x2.control.slots - |Active(x2.records, now)|, 0);
      if available != 0 {
        CandidatesAreClaimable(recovered, order, now);
        ClaimedLease(x2, order, available, |ActiveLarge(x2.records, now, cfg)|, now, cfg, id);
      }
    }
  }

  lemma RecoveredGivesNoLease(rec: Record, now: Time, force: bool, w: WorkerId)
    requires Owns(Recovered(rec, now, force), w)
    ensures Owns(rec, w)
  {}

  lemma BeatRenews(cfg: Config, x: World, e: Event, w: WorkerId, t: Time)
    requires Enabled(cfg, x, e) && e == OnWorker(w, Heartbeat(t)) && HoldsLease(x, w)
    ensures var y := Apply(cfg, x, e);
            HoldsLease(y, w) && EndOf(y, w).Some? && EndsLease(EndOf(y, w).value, t, cfg.settings)
  {
    hide EndsLease;
    LeaseFormula(cfg.settings, t);
  }

  lemma StartedLease(rec: Record, w: WorkerId, i: nat, stamp: Fingerprint, identity: Identity, t: Time, cfg: Settings)
    requires Owns(rec, w) && i < |rec.run.value.files|
    ensures var after := Started(rec, w, i, stamp, identity, t, cfg);
            Owns(after, w) && RunOf(after).leaseExpiresAt.Some?
            && EndsLease(RunOf(after).leaseExpiresAt.value, t, cfg)
  {
    hide EndsLease;
    LeaseFormula(cfg, t);
  }

  lemma StartRenews(cfg: Config, x: World, e: Event, w: WorkerId, t: Time)
    requires Enabled(cfg, x, e) && e.Start? && e.w == w && e.now == t && HoldsLease(x, w)
    ensures var y := Apply(cfg, x, e);
            HoldsLease(y, w) && EndOf(y, w).Some? && EndsLease(EndOf(y, w).value, t, cfg.settings)
  {
    hide Started, EndsLease, IdentityDiffers;
    StartedLease(OfWorker(x, w), w, e.i, e.stamp, e.identity, t, cfg.settings);
  }

  lemma ClaimTakesLease(cfg: Config, x: World, e: Event, w: WorkerId)
    requires Inv(cfg, x) && Enabled(cfg, x, e) && e.Schedule?
    requires !HoldsLease(x, w) && HoldsLease(Apply(cfg, x, e), w)
    ensures EndOf(Apply(cfg, x, e), w).Some? && EndsLease(EndOf(Apply(cfg, x, e), w).value, e.now, cfg.settings)
  {
    hide RecordInv, SlotsKept, EndsLease, SchedulerCycle, Recovered, CandidateOrder, RecoverAll;
    var y := Apply(cfg, x, e);
    var id := y.workers[w].job;
    ScheduleTouches(x, e.order, e.now, e.maintenance, e.canScan, cfg.settings, id);
    ScheduledLease(x, e.order, e.now, e.maintenance, e.canScan, cfg.settings, id);
    if y.records[id] == Recovered(x.records[id], e.now, false) {
      RecoveredGivesNoLease(x.records[id], e.now, false, w);
      HolderIsKnown(cfg, x, id, w);
    }
  }

  lemma HolderIsKnown(cfg: Config, x: World, id: JobId, w: WorkerId)
    requires Inv(cfg, x) && id in x.records && Owns(x.records[id], w)
    ensures HoldsLease(x, w) && x.workers[w].job == id
  {
    hide RecordOk, Backed, FolderAgrees, PhaseAgrees;
    assert RecordInv(cfg, x, id);
  }

  // After a claim, a start or a beat at time t the worker holds a lease that ends exactly
  // max(leaseSeconds, 3 * heartbeatSeconds, 30) later.
  lemma RenewedLease(cfg: Config, xs: seq<World>, es: seq<Event>, i: nat, w: WorkerId, t: Time)
    requires cfg.Valid() && IsRun(cfg, xs, es) && i < |es| && Renews(xs[i], es[i], xs[i + 1], w, t)
    ensures HoldsLease(xs[i + 1], w) && OfWorker(xs[i + 1], w).job.state == Scanning
    ensures EndOf(xs[i + 1], w).Some? && EndsLease(EndOf(xs[i + 1], w).value, t, cfg.settings)
  {
    hide Apply, Enabled, Inv, EndsLease;
    var x, e := xs[i], es[i];
    if e.Schedule? {
      RunsKeepInv(cfg, xs, es, i);
      ClaimTakesLease(cfg, x, e, w);
    } else if e.Start? {
      StartRenews(cfg, x, e, w, t);
    } else {
      BeatRenews(cfg, x, e, w, t);
    }
    ChargeFacts(cfg, xs, es, i + 1, w);
  }

  // ---------- keeping and losing it ----------

  // A recovery of a scan that is held: in time it changes nothing, late or forced it hands the job back.
  lemma RecoveredExactly(rec: Record, w: WorkerId, end: Time, now: Time, force: bool)
    requires RecordOk(rec) && Owns(rec, w) && RunOf(rec).leaseExpiresAt == Some(end)
    ensures var after := Recovered(rec, now, force);
            if force || end <= now then
              after.job == rec.job.(state := if RunOf(rec).pauseRequested then ScanPaused else ScanPending)
              && HoldsNothing(RunOf(after)) && HandedBack(RunOf(rec).files, RunOf(after).files, Pending)
            else after == rec
  {
    OwnerScans(rec, w);
    hide RecordOk, Release, HandedBack;
    ReleasedAs(rec.run.value.files);
  }

  lemma ScanStepsKeepLease(rec: Record, w: WorkerId)
    requires Owns(rec, w)
    ensures forall root, manifest, identity :: var after := Prepared(rec, w, root, manifest, identity);
              Owns(after, w) && RunOf(after).leaseExpiresAt == RunOf(rec).leaseExpiresAt
    ensures forall i, threat, identity :: var after := Scanned(rec, w, i, false, threat, identity);
              Owns(after, w) && RunOf(after).leaseExpiresAt == RunOf(rec).leaseExpiresAt
  {
    hide Rebuild, IdentityDiffers, TotalBytes, CleanFiles, CleanBytes;
  }

  // Nobody else's step touches a held lease.
  lemma OthersTouchNothing(rec: Record, v: WorkerId, w: WorkerId)
    requires Owns(rec, w) && v != w
    ensures !Owns(rec, v)
  {}

  lemma JobEventsKeepLease(rec: Record, w: WorkerId, e: JobEvent)
    requires RecordOk(rec) && Owns(rec, w) && JobEnabled(rec, e)
    ensures var after := JobStep(rec, e); Owns(after, w) && RunOf(after).leaseExpiresAt == RunOf(rec).leaseExpiresAt
  {
    OwnerScans(rec, w);
    hide RecordOk, Editable, PreparedForRetry, Reattached, Queued;
  }

  lemma ScanStepKeepsLease(cfg: Config, x: World, e: Event, w: WorkerId)
    requires Enabled(cfg, x, e) && HoldsLease(x, w)
    requires ByWorker(e, w) && (e.Prepare? || (e.Answer? && !e.infected))
    ensures var y := Apply(cfg, x, e);
            HoldsLease(y, w) && y.workers[w].job == x.workers[w].job && EndOf(y, w) == EndOf(x, w)
  {
    hide Prepared, Scanned, CanPrepare;
    ScanStepsKeepLease(OfWorker(x, w), w);
  }

  lemma WorkersAreKept(cfg: Config, x: World, e: Event, w: WorkerId)
    requires Inv(cfg, x) && Enabled(cfg, x, e) && w in x.workers
    ensures var y := Apply(cfg, x, e); w in y.workers && y.workers[w].job == x.workers[w].job
  {
    hide RecordInv, SlotsKept, JobStep, WorkerStep, Recovered, Prepared, Started, Scanned, FinishedClean,
         SchedulerCycle, Reconcile, CanPrepare, CanStart, WorkerEnabled, JobEnabled;
    if e.Schedule? {
      ScheduleTouches(x, e.order, e.now, e.maintenance, e.canScan, cfg.settings, 0);
    }
  }

  lemma SomeoneElsesStep(cfg: Config, x: World, e: Event, w: WorkerId, v: WorkerId)
    requires Enabled(cfg, x, e) && HoldsLease(x, w) && ByWorker(e, v) && v != w
    ensures var id := x.workers[w].job;
            id in Apply(cfg, x, e).records && Apply(cfg, x, e).records[id] == x.records[id]
  {
    hide JobStep, WorkerStep, Prepared, Started, Scanned, FinishedClean, CanPrepare, CanStart;
    if x.workers[v].job == x.workers[w].job {
      WithoutLeaseNothingIsRecorded(cfg, x, e, v);
    }
  }

  // One recovery, by itself or at the start of a scheduler cycle, keeps or ends a held lease by its time.
  lemma RecoveryDecides(cfg: Config, x: World, e: Event, w: WorkerId, end: Time)
    requires Inv(cfg, x) && Enabled(cfg, x, e) && HoldsLease(x, w) && EndOf(x, w) == Some(end)
    requires Recovers(e) && !(e.Recover? && e.force)
    ensures var y, id := Apply(cfg, x, e), x.workers[w].job;
            w in y.workers && y.workers[w].job == id
            && if end <= RecoveryTime(e) then !HoldsLease(y, w) else HoldsLease(y, w) && EndOf(y, w) == Some(end)
  {
    hide RecordOk, Backed, OwnerAgrees, FolderAgrees, Recovered, SchedulerCycle, CandidateOrder, Apply, SlotsKept;
    var id, rec := x.workers[w].job, OfWorker(x, w);
    assert RecordInv(cfg, x, id);
    WorkersAreKept(cfg, x, e, w);
    RecoveredExactly(rec, w, end, RecoveryTime(e), false);
    if id !in Apply(cfg, x, e).records { OnlyDeleteRemoves(cfg, x, e, id); }
    AppliedTo(cfg, x, e, id);
    if e.Schedule? {
      ScheduleTouches(x, e.order, e.now, e.maintenance, e.canScan, cfg.settings, id);
      OwnerScans(rec, w);
      assert w < x.nextWorker;
    }
  }

  lemma QuietStep(cfg: Config, x: World, e: Event, w: WorkerId, end: Time)
    requires Inv(cfg, x) && Enabled(cfg, x, e) && HoldsLease(x, w) && EndOf(x, w) == Some(end)
    requires Quiet(e, w, x.workers[w].job)
    ensures var y, id := Apply(cfg, x, e), x.workers[w].job;
            w in y.workers && y.workers[w].job == id
            && if Recovers(e) && end <= RecoveryTime(e) then !HoldsLease(y, w)
               else HoldsLease(y, w) && EndOf(y, w) == Some(end)
  {
    hide RecordOk, Backed, OwnerAgrees, FolderAgrees, JobStep, WorkerStep, Recovered, Prepared, Started, Scanned,
         FinishedClean, SchedulerCycle, CanPrepare, CanStart, Reconcile, Apply, CandidateOrder, HistoryInv, SlotsKept,
         JobEnabled;
    var id := x.workers[w].job;
    WorkersAreKept(cfg, x, e, w);
    if Recovers(e) {
      RecoveryDecides(cfg, x, e, w, end);
    } else if ByWorker(e, w) {
      ScanStepKeepsLease(cfg, x, e, w);
    } else if e.OnWorker? || e.Prepare? || e.Start? || e.Answer? || e.FinishClean? {
      SomeoneElsesStep(cfg, x, e, w, e.w);
    } else {
      if id !in Apply(cfg, x, e).records { OnlyDeleteRemoves(cfg, x, e, id); }
      OtherEventsKeepLease(cfg, x, e, w);
    }
  }

  lemma OtherEventsKeepLease(cfg: Config, x: World, e: Event, w: WorkerId)
    requires Inv(cfg, x) && Enabled(cfg, x, e) && HoldsLease(x, w) && x.workers[w].job in Apply(cfg, x, e).records
    requires e.Submit? || e.OnJob? || e.Delete? || e.SetSlots? || e.Promote?
    ensures var id := x.workers[w].job; var after := Apply(cfg, x, e).records[id];
            Owns(after, w) && RunOf(after).leaseExpiresAt == RunOf(x.records[id]).leaseExpiresAt
  {
    hide RecordOk, Backed, OwnerAgrees, FolderAgrees, JobStep, Reconcile, Apply, SlotsKept, JobEnabled;
    var id := x.workers[w].job;
    AppliedTo(cfg, x, e, id);
    assert RecordInv(cfg, x, id);
    if e.OnJob? && e.id == id {
      JobEventsKeepLease(x.records[id], w, e.event);
    } else if e.Promote? && e.id == id {
      ReconcileKeepsRun(x.records[id], cfg.canon, e.torrent, e.hookAccepts);
    }
  }

  // ---------- over a run ----------

  lemma EndIsInTime(end: Time, now: Time, t: Time, s: Settings)
    requires EndsLease(end, t, s)
    ensures InTime(now, t, s) <==> now < end
  {}

  // As long as nothing of its own and no forced recovery comes between, a worker that claimed its job, started a
  // file or beat at time t keeps its scan exactly until the first recovery or scheduler cycle that is not before
  // t + max(leaseSeconds, 3 * heartbeatSeconds, 30); a late one takes it for good.
  lemma {:induction false} LeaseHoldsExactly(cfg: Config, xs: seq<World>, es: seq<Event>, i: nat, k: nat, w: WorkerId,
                                             t: Time)
    requires cfg.Valid() && IsRun(cfg, xs, es) && i < k < |xs| && Renews(xs[i], es[i], xs[i + 1], w, t)
    requires w in xs[i + 1].workers && forall j :: i < j < k ==> Quiet(es[j], w, xs[i + 1].workers[w].job)
    ensures w in xs[k].workers
    ensures HoldsLease(xs[k], w)
       <==> forall j :: i < j < k && Recovers(es[j]) ==> InTime(RecoveryTime(es[j]), t, cfg.settings)
    ensures HoldsLease(xs[k], w) ==>
              OfWorker(xs[k], w).job.state == Scanning && xs[k].workers[w].job == xs[i + 1].workers[w].job
              && EndOf(xs[k], w).Some? && EndsLease(EndOf(xs[k], w).value, t, cfg.settings)
  {
    hide Apply, Enabled, Inv, EndsLease, InTime, HoldsLease, Quiet;
    RenewedLease(cfg, xs, es, i, w, t);
    if i + 1 < k {
      LeaseHoldsExactly(cfg, xs, es, i, k - 1, w, t);
      RunsKeepInv(cfg, xs, es, k - 1);
      WorkersAreKept(cfg, xs[k - 1], es[k - 1], w);
      if HoldsLease(xs[k - 1], w) {
        QuietStep(cfg, xs[k - 1], es[k - 1], w, EndOf(xs[k - 1], w).value);
        if Recovers(es[k - 1]) {
          EndIsInTime(EndOf(xs[k - 1], w).value, RecoveryTime(es[k - 1]), t, cfg.settings);
        }
      } else {
        LostLeaseStaysLost(cfg, xs, es, k - 1, k, w);
      }
    }
    if HoldsLease(xs[k], w) { ChargeFacts(cfg, xs, es, k, w); }
  }

  lemma HandedBackBy(cfg: Config, x: World, e: Event, w: WorkerId, end: Time)
    requires Inv(cfg, x) && Enabled(cfg, x, e) && e.Recover? && HoldsLease(x, w) && EndOf(x, w) == Some(end)
    requires e.force || end <= e.now
    ensures var y, id := Apply(cfg, x, e), x.workers[w].job;
            id in y.records
            && var rec, after := x.records[id], y.records[id];
               after.job == rec.job.(state := if RunOf(rec).pauseRequested then ScanPaused else ScanPending)
               && HoldsNothing(RunOf(after)) && HandedBack(RunOf(rec).files, RunOf(after).files, Pending)
  {
    hide RecordOk, Backed, OwnerAgrees, FolderAgrees, Recovered, HistoryInv, SlotsKept, HandedBack, HoldsNothing;
    assert RecordInv(cfg, x, x.workers[w].job);
    RecoveredExactly(OfWorker(x, w), w, end, e.now, e.force);
  }

  // The recovery that is late, or forced as after a restart, puts the job back to rest with its rows pending.
  lemma LateRecoveryHandsBack(cfg: Config, xs: seq<World>, es: seq<Event>, i: nat, k: nat, w: WorkerId, t: Time)
    requires cfg.Valid() && IsRun(cfg, xs, es) && i < k < |es| && Renews(xs[i], es[i], xs[i + 1], w, t)
    requires w in xs[i + 1].workers && forall j :: i < j < k ==> Quiet(es[j], w, xs[i + 1].workers[w].job)
    requires HoldsLease(xs[k], w) && es[k].Recover? && (es[k].force || !InTime(es[k].now, t, cfg.settings))
    ensures var id := xs[i + 1].workers[w].job;
            id in xs[k].records && id in xs[k + 1].records
            && var rec, after := xs[k].records[id], xs[k + 1].records[id];
               after.job == rec.job.(state := if RunOf(rec).pauseRequested then ScanPaused else ScanPending)
               && HoldsNothing(RunOf(after)) && HandedBack(RunOf(rec).files, RunOf(after).files, Pending)
  {
    hide Apply, Enabled, Inv, EndsLease, InTime, Quiet, HandedBack, HoldsNothing, Renews;
    LeaseHoldsExactly(cfg, xs, es, i, k, w, t);
    RunsKeepInv(cfg, xs, es, k);
    EndIsInTime(EndOf(xs[k], w).value, es[k].now, t, cfg.settings);
    HandedBackBy(cfg, xs[k], es[k], w, EndOf(xs[k], w).value);
  }

  predicate AllAtRest(x: World) {
    forall id <- x.records :: x.records[id].job.state != Scanning && RunOf(x.records[id]).worker.None?
  }

  // After a restart, whose recovery is forced, no job scans and nobody holds a lease.
  lemma RestartFreesAll(cfg: Config, xs: seq<World>, es: seq<Event>, i: nat, now: Time)
    requires cfg.Valid() && IsRun(cfg, xs, es) && i < |es| && es[i] == Recover(now, true)
    ensures AllAtRest(xs[i + 1])
  {
    hide Enabled, HistoryInv, SlotsKept, Backed, OwnerAgrees, FolderAgrees, RecordOk;
    RunsKeepInv(cfg, xs, es, i + 1);
    var y := xs[i + 1];
    forall id <- y.records
      ensures y.records[id].job.state != Scanning && RunOf(y.records[id]).worker.None?
    {
      assert RecordInv(cfg, y, id);
      ForcedRecovery(xs[i].records[id], now);
      RestHoldsNothing(y.records[id]);
    }
  }

  lemma ForcedRecovery(rec: Record, now: Time)
    ensures Recovered(rec, now, true).job.state != Scanning
  {}

  lemma RestHoldsNothing(rec: Record)
    requires RecordOk(rec) && rec.job.state != Scanning
    ensures RunOf(rec).worker.None?
  {}
}
