// What moves a run forward: which jobs a scheduler cycle claims and in what state, which file is scanned next, and
// what a rebuild keeps of earlier work.
module ScanProgress {
  import opened Options
  import opened ScanModel
  import opened Promotion
  import opened ScanRuns
  import opened ScanSafety
  import opened ScanTheorems
  import opened ScanLimits
  import opened ScanOutcomes

  // A pending job that nobody paused and whose waiting time is over.
  predicate Due(rec: Record, now: Time) {
    rec.job.state == ScanPending && rec.run.Some? && !rec.run.value.pauseRequested
    && (rec.run.value.nextAttemptAt.Some? ==> rec.run.value.nextAttemptAt.value <= now)
  }

  // What is known of the size: the bytes of the manifest, or else the size of the download.
  function KnownBytes(rec: Record): int {
    if rec.run.Some? && rec.run.value.totalBytes != 0 then rec.run.value.totalBytes
    else if rec.job.sizeBytes.Some? then rec.job.sizeBytes.value else 0
  }

  lemma LargeBySize(rec: Record, cfg: Settings)
    ensures IsLarge(rec, cfg) <==> KnownBytes(rec) >= cfg.largeScanBytes
  {}

  // ---------- counting a cycle ----------

  lemma ClaimCounts(x: World, id: JobId, now: Time, cfg: Settings)
    requires id in x.records && x.records[id].run.Some? && x.records[id].job.state == ScanPending
    ensures var y := ClaimOne(x, id, now, cfg);
            |InState(y.records, Scanning)| == |InState(x.records, Scanning)| + 1
            && |LargeScans(y, cfg)| == |LargeScans(x, cfg)| + if IsLarge(x.records[id], cfg) then 1 else 0
  {
    hide Claimed, IsLarge;
    var y := ClaimOne(x, id, now, cfg);
    ClaimedScans(x.records[id], x.nextWorker, now, cfg);
    SameSize(x.records[id], x.nextWorker, now, cfg);
    assert InState(y.records, Scanning) == InState(x.records, Scanning) + {id};
    if IsLarge(x.records[id], cfg) {
      assert LargeScans(y, cfg) == LargeScans(x, cfg) + {id};
    } else {
      assert LargeScans(y, cfg) == LargeScans(x, cfg);
    }
  }

  lemma {:induction false} ClaimLoopCounts(x: World, order: seq<JobId>, available: int, large: int, now: Time,
                                           cfg: Settings)
    requires Claimable(x.records, order)
    ensures var (y, claims) := ClaimLoop(x, order, available, large, now, cfg);
            |InState(y.records, Scanning)| == |InState(x.records, Scanning)| + |claims|
            && |LargeScans(y, cfg)| == |LargeScans(x, cfg)| + CountLarge(claims)
    decreases |order|
  {
    hide IsLarge, Claimed, LargeScans, InState;
    if order != [] && available > 0 {
      var first, rest := order[0], order[1..];
      assert first in order && first !in rest && order == [first] + rest;
      if IsLarge(x.records[first], cfg) && large >= cfg.MaxLarge() {
        ClaimLoopCounts(x, rest, available, large, now, cfg);
      } else {
        var y := ClaimOne(x, first, now, cfg);
        StillClaimable(x, first, rest, now, cfg);
        ClaimCounts(x, first, now, cfg);
        var large' := if IsLarge(x.records[first], cfg) then large + 1 else large;
        ClaimLoopCounts(y, rest, available - 1, large', now, cfg);
        var claims := ClaimLoop(y, rest, available - 1, large', now, cfg).1;
        assert ([Claim(first, x.nextWorker, IsLarge(x.records[first], cfg))] + claims)[1..] == claims;
      }
    }
  }

  // A candidate that was passed over had no slot left, or was large while as many large jobs scan as may.
  lemma {:induction false} PassedOver(x: World, order: seq<JobId>, available: int, large: int, now: Time,
                                      cfg: Settings, id: JobId)
    requires Claimable(x.records, order) && available >= 0 && id in order
    ensures var (y, claims) := ClaimLoop(x, order, available, large, now, cfg);
            id in y.records
            && (y.records[id].job.state == Scanning
                || (y.records[id] == x.records[id]
                    && (|claims| == available
                        || (IsLarge(x.records[id], cfg) && large + CountLarge(claims) >= cfg.MaxLarge()))))
    decreases |order|
  {
    hide IsLarge, Claimed;
    if available > 0 {
      var first, rest := order[0], order[1..];
      assert first in order && first !in rest && order == [first] + rest;
      if IsLarge(x.records[first], cfg) && large >= cfg.MaxLarge() {
        if id == first {
          ClaimLoopSkips(x, rest, available, large, now, cfg, id);
        } else {
          PassedOver(x, rest, available, large, now, cfg, id);
        }
      } else {
        var y := ClaimOne(x, first, now, cfg);
        StillClaimable(x, first, rest, now, cfg);
        ClaimedScans(x.records[first], x.nextWorker, now, cfg);
        var large' := if IsLarge(x.records[first], cfg) then large + 1 else large;
        var claims := ClaimLoop(y, rest, available - 1, large', now, cfg).1;
        assert ([Claim(first, x.nextWorker, IsLarge(x.records[first], cfg))] + claims)[1..] == claims;
        if id == first {
          ClaimLoopSkips(y, rest, available - 1, large', now, cfg, id);
        } else {
          PassedOver(y, rest, available - 1, large', now, cfg, id);
        }
      }
    }
  }

  lemma ClaimLoopKeys(x: World, order: seq<JobId>, available: int, large: int, now: Time, cfg: Settings)
    requires Claimable(x.records, order)
    ensures ClaimLoop(x, order, available, large, now, cfg).0.records.Keys == x.records.Keys
  {
    hide ClaimLoop, IsLarge;
    ClaimLoopTouches(x, order, available, large, now, cfg, 0);
  }

  // The first of two candidates was claimed, or was large while no large job could be added.
  predicate FirstServed(x: World, y: World, a: JobId, b: JobId, allLarge: int, cfg: Settings)
    requires a in x.records && a in y.records && b in y.records
  {
    y.records[b].job.state == Scanning ==>
      y.records[a].job.state == Scanning || (IsLarge(x.records[a], cfg) && allLarge >= cfg.MaxLarge())
  }

  lemma FirstInTurn(x: World, order: seq<JobId>, available: int, large: int, now: Time, cfg: Settings, b: nat)
    requires Claimable(x.records, order) && available > 0 && 0 < b < |order|
    ensures var (y, claims) := ClaimLoop(x, order, available, large, now, cfg);
            order[0] in y.records && order[b] in y.records
            && FirstServed(x, y, order[0], order[b], large + CountLarge(claims), cfg)
  {
    hide Claimed, ClaimLoop, IsLarge;
    PassedOverFirst(x, order, available, large, now, cfg);
    ClaimLoopKeys(x, order, available, large, now, cfg);
    assert order[b] in order;
  }

  lemma PassedOverFirst(x: World, order: seq<JobId>, available: int, large: int, now: Time, cfg: Settings)
    requires Claimable(x.records, order) && available > 0 && order != []
    ensures var (y, claims) := ClaimLoop(x, order, available, large, now, cfg);
            order[0] in y.records
            && (y.records[order[0]].job.state == Scanning
                || (IsLarge(x.records[order[0]], cfg) && large + CountLarge(claims) >= cfg.MaxLarge()))
  {
    hide IsLarge, Claimed;
    var first, rest := order[0], order[1..];
    assert first in order && first !in rest && order == [first] + rest;
    if IsLarge(x.records[first], cfg) && large >= cfg.MaxLarge() {
      ClaimLoopSkips(x, rest, available, large, now, cfg, first);
    } else {
      StillClaimable(x, first, rest, now, cfg);
      ClaimedScans(x.records[first], x.nextWorker, now, cfg);
      ClaimLoopSkips(ClaimOne(x, first, now, cfg), rest, available - 1,
          if IsLarge(x.records[first], cfg) then large + 1 else large, now, cfg, first);
    }
  }

  // Of two candidates the earlier one is claimed, unless it is large and no large job may be added.
  lemma {:induction false} InTurn(x: World, order: seq<JobId>, available: int, large: int, now: Time,
                                  cfg: Settings, a: nat, b: nat)
    requires Claimable(x.records, order) && available >= 0 && a < b < |order|
    ensures var (y, claims) := ClaimLoop(x, order, available, large, now, cfg);
            order[a] in x.records && order[a] in y.records && order[b] in y.records
            && FirstServed(x, y, order[a], order[b], large + CountLarge(claims), cfg)
    decreases |order|
  {
    hide IsLarge, Claimed;
    if available > 0 {
      if a == 0 {
        hide FirstServed, ClaimLoop;
        FirstInTurn(x, order, available, large, now, cfg, b);
      } else {
        LaterInTurn(x, order, available, large, now, cfg, a, b);
      }
    } else {
      assert order[a] in order && order[b] in order;
    }
  }

  // One round of the claim loop.
  lemma LoopGoesOn(x: World, order: seq<JobId>, available: int, large: int, now: Time, cfg: Settings)
    requires Claimable(x.records, order) && available > 0 && order != []
    ensures var first, rest := order[0], order[1..];
            first in x.records
            && var isLarge := IsLarge(x.records[first], cfg);
               if isLarge && large >= cfg.MaxLarge() then
                 ClaimLoop(x, order, available, large, now, cfg) == ClaimLoop(x, rest, available, large, now, cfg)
               else
                 var (y, claims) := ClaimLoop(x, order, available, large, now, cfg);
                 var next := ClaimLoop(ClaimOne(x, first, now, cfg), rest, available - 1,
                                       if isLarge then large + 1 else large, now, cfg);
                 y == next.0 && CountLarge(claims) == CountLarge(next.1) + if isLarge then 1 else 0
  {
    hide IsLarge, Claimed;
    var first, rest := order[0], order[1..];
    assert first in order && order == [first] + rest;
    var isLarge := IsLarge(x.records[first], cfg);
    if !(isLarge && large >= cfg.MaxLarge()) {
      StillClaimable(x, first, rest, now, cfg);
      var claims := ClaimLoop(ClaimOne(x, first, now, cfg), rest, available - 1, if isLarge then large + 1 else large,
          now, cfg).1;
      assert ([Claim(first, x.nextWorker, isLarge)] + claims)[1..] == claims;
    }
  }

  lemma {:induction false} LaterInTurn(x: World, order: seq<JobId>, available: int, large: int, now: Time,
                                       cfg: Settings, a: nat, b: nat)
    requires Claimable(x.records, order) && available > 0 && 0 < a < b < |order|
    ensures var (y, claims) := ClaimLoop(x, order, available, large, now, cfg);
            order[a] in x.records && order[a] in y.records && order[b] in y.records
            && FirstServed(x, y, order[a], order[b], large + CountLarge(claims), cfg)
    decreases |order|, 0
  {
    hide IsLarge, Claimed, ClaimLoop, CountLarge;
    var first, rest := order[0], order[1..];
    assert first in order && first !in rest && order == [first] + rest && order[a] == rest[a - 1] != first;
    LoopGoesOn(x, order, available, large, now, cfg);
    if IsLarge(x.records[first], cfg) && large >= cfg.MaxLarge() {
      InTurn(x, rest, available, large, now, cfg, a - 1, b - 1);
    } else {
      var y := ClaimOne(x, first, now, cfg);
      StillClaimable(x, first, rest, now, cfg);
      InTurn(y, rest, available - 1, if IsLarge(x.records[first], cfg) then large + 1 else large, now, cfg, a - 1,
          b - 1);
    }
  }

  // ---------- a whole cycle ----------

  // The slots are used up, or the job is large and no large job may be added.
  predicate MustWait(cfg: Config, y: World, id: JobId)
    requires id in y.records
  {
    |InState(y.records, Scanning)| >= y.control.slots
    || (KnownBytes(y.records[id]) >= cfg.settings.largeScanBytes
        && |LargeScans(y, cfg.settings)| >= cfg.settings.MaxLarge())
  }

  lemma AfterClaims(cfg: Config, x: World, order: seq<JobId>, now: Time, id: JobId)
    requires Claimable(x.records, order) && id in order
    requires Active(x.records, now) == InState(x.records, Scanning)
    requires ActiveLarge(x.records, now, cfg.settings) == LargeScans(x, cfg.settings)
    ensures var available := Max(x.control.slots - |Active(x.records, now)|, 0);
            var y := ClaimLoop(x, order, available, |ActiveLarge(x.records, now, cfg.settings)|, now, cfg.settings).0;
            id in y.records && y.control == x.control
            && (y.records[id].job.state == Scanning || (y.records[id] == x.records[id] && MustWait(cfg, y, id)))
  {
    hide IsLarge, LargeScans, InState, Active, ActiveLarge, ClaimLoop;
    var settings := cfg.settings;
    var available := Max(x.control.slots - |Active(x.records, now)|, 0);
    var large := |ActiveLarge(x.records, now, settings)|;
    PassedOver(x, order, available, large, now, settings, id);
    ClaimLoopCounts(x, order, available, large, now, settings);
    ClaimLoopTouches(x, order, available, large, now, settings, id);
    LargeBySize(x.records[id], settings);
  }

  lemma CycleConserves(cfg: Config, x: World, order: seq<JobId>, now: Time, id: JobId)
    requires Inv(cfg, x) && CandidateOrder(RecoverAll(x.records, now, false), order, now) && id in order
    ensures var y := SchedulerCycle(x, order, now, false, true, cfg.settings).0;
            id in y.records && (y.records[id].job.state == Scanning || MustWait(cfg, y, id))
  {
    hide Inv, RecoverAll, ClaimLoop, Active, ActiveLarge, CandidateOrder, ClampedControl, IsLarge;
    var settings := cfg.settings;
    var records := RecoverAll(x.records, now, false);
    RecoveredLarge(cfg, x, now);
    RecoveredAreActive(cfg, x, now);
    CandidatesAreClaimable(records, order, now);
    CandidatesHaveRuns(records, order, now);
    var x0 := x.(records := records);
    var x1 := x0.(control := ClampedControl(x.control, settings));
    var x2 := x1.(control := RelaxedControl(x1.control, x1.records, settings));
    assert LargeScans(x2, settings) == LargeScans(x0, settings);
    AfterClaims(cfg, x2, order, now, id);
    var available := Max(x2.control.slots - |Active(x2.records, now)|, 0);
    if available == 0 {
      assert ClaimLoop(x2, order, 0, |ActiveLarge(x2.records, now, settings)|, now, settings).0 == x2 by {
        NoSlotNoClaim(x2, order, |ActiveLarge(x2.records, now, settings)|, now, settings);
      }
    } else {
      var x3 := ClaimLoop(x2, order, available, |ActiveLarge(x2.records, now, settings)|, now, settings).0;
      var y := x3.(control := RelaxedControl(x3.control, x3.records, settings));
      assert LargeScans(y, settings) == LargeScans(x3, settings);
      if y.records[id].job.state != Scanning {
        assert x3.records[id].job.state == ScanPending;
        assert id in InState(x3.records, ScanPending);
      }
    }
  }

  lemma NoSlotNoClaim(x: World, order: seq<JobId>, large: int, now: Time, cfg: Settings)
    requires Claimable(x.records, order)
    ensures ClaimLoop(x, order, 0, large, now, cfg) == (x, [])
  {}

  // No slot is wasted: a job that is still due after a cycle that may claim has to wait, because all slots scan,
  // or because it is large and as many large jobs scan as may.
  lemma NoSlotIsWasted(cfg: Config, xs: seq<World>, es: seq<Event>, i: nat, id: JobId)
    requires cfg.Valid() && IsRun(cfg, xs, es) && i < |es|
    requires es[i].Schedule? && !es[i].maintenance && es[i].canScan
    requires id in xs[i + 1].records && Due(xs[i + 1].records[id], es[i].now)
    ensures MustWait(cfg, xs[i + 1], id)
  {
    hide Inv, SchedulerCycle, RecoverAll, IsLarge, MustWait;
    var x, e := xs[i], es[i];
    RunsKeepInv(cfg, xs, es, i);
    ScheduleTouches(x, e.order, e.now, e.maintenance, e.canScan, cfg.settings, id);
    StillCandidate(x.records, e.order, e.now, id, xs[i + 1].records[id]);
    CycleConserves(cfg, x, e.order, e.now, id);
  }

  lemma StillCandidate(records: map<JobId, Record>, order: seq<JobId>, now: Time, id: JobId, rec: Record)
    requires CandidateOrder(RecoverAll(records, now, false), order, now) && id in records
    requires rec == Recovered(records[id], now, false) && Due(rec, now)
    ensures id in order
  {
    hide Recovered;
    assert Candidate(RecoverAll(records, now, false)[id], now);
  }

  // Of two jobs that are due, the one that comes first in the queue's order is claimed first, unless it is large
  // and no large job may be added.
  lemma ClaimedInTurn(cfg: Config, xs: seq<World>, es: seq<Event>, i: nat, a: nat, b: nat)
    requires cfg.Valid() && IsRun(cfg, xs, es) && i < |es| && es[i].Schedule? && a < b < |es[i].order|
    ensures var y, order := xs[i + 1], es[i].order;
            order[a] in y.records && order[b] in y.records
            && (y.records[order[b]].job.state == Scanning ==>
                  y.records[order[a]].job.state == Scanning
                  || (KnownBytes(y.records[order[a]]) >= cfg.settings.largeScanBytes
                      && |LargeScans(y, cfg.settings)| >= cfg.settings.MaxLarge()))
  {
    hide Inv, SchedulerCycle, RecoverAll, IsLarge;
    RunsKeepInv(cfg, xs, es, i);
    CycleInTurn(cfg, xs[i], es[i].order, es[i].now, es[i].maintenance, es[i].canScan, a, b);
  }

  lemma CycleInTurn(cfg: Config, x: World, order: seq<JobId>, now: Time, maintenance: bool, canScan: bool, a: nat,
                    b: nat)
    requires Inv(cfg, x) && CandidateOrder(RecoverAll(x.records, now, false), order, now) && a < b < |order|
    ensures var y := SchedulerCycle(x, order, now, maintenance, canScan, cfg.settings).0;
            order[a] in y.records && order[b] in y.records
            && (y.records[order[b]].job.state == Scanning ==>
                  y.records[order[a]].job.state == Scanning
                  || (KnownBytes(y.records[order[a]]) >= cfg.settings.largeScanBytes
                      && |LargeScans(y, cfg.settings)| >= cfg.settings.MaxLarge()))
  {
    hide Inv, RecoverAll, ClaimLoop, Active, ActiveLarge, CandidateOrder, ClampedControl, IsLarge, InState;
    var settings := cfg.settings;
    var records := RecoverAll(x.records, now, false);
    RecoveredLarge(cfg, x, now);
    CandidatesAreClaimable(records, order, now);
    CandidatesHaveRuns(records, order, now);
    assert order[a] in order && order[b] in order;
    var x0 := x.(records := records);
    var x1 := x0.(control := ClampedControl(x.control, settings));
    if !maintenance && canScan {
      var x2 := x1.(control := RelaxedControl(x1.control, x1.records, settings));
      assert LargeScans(x2, settings) == LargeScans(x0, settings);
      var available := Max(x2.control.slots - |Active(x2.records, now)|, 0);
      if available != 0 {
        var large := |ActiveLarge(x2.records, now, settings)|;
        InTurn(x2, order, available, large, now, settings, a, b);
        PassedOver(x2, order, available, large, now, settings, order[a]);
        ClaimLoopCounts(x2, order, available, large, now, settings);
        LargeBySize(x2.records[order[a]], settings);
        var x3 := ClaimLoop(x2, order, available, large, now, settings).0;
        var y := x3.(control := RelaxedControl(x3.control, x3.records, settings));
        assert LargeScans(y, settings) == LargeScans(x3, settings);
      }
    }
  }

  // The queue's first sort key: the priority, raised by one for each whole hour of waiting up to fifty.
  function EffectivePriority(rec: Record, now: Time): int {
    var run := RunOf(rec);
    var waited := match run.queuedAt case Some(since) => Max((now - since) / 3600, 0) case None => 0;
    run.priority + Min(waited, 50)
  }

  predicate SortedByPriority(records: map<JobId, Record>, order: seq<JobId>, now: Time)
    requires forall id <- order :: id in records
  {
    forall i, j :: 0 <= i < j < |order| ==>
      EffectivePriority(records[order[i]], now) >= EffectivePriority(records[order[j]], now)
  }

  // So no waiting makes up for more than fifty: with the queue sorted by that key, a job whose own priority is more
  // than fifty above another's is claimed before it, unless it is large and no large job may be added.
  lemma PrioritizedFirst(cfg: Config, xs: seq<World>, es: seq<Event>, i: nat, a: nat, b: nat)
    requires cfg.Valid() && IsRun(cfg, xs, es) && i < |es| && es[i].Schedule?
    requires a < |es[i].order| && b < |es[i].order|
    requires var records := RecoverAll(xs[i].records, es[i].now, false);
             (forall id <- es[i].order :: id in records) && SortedByPriority(records, es[i].order, es[i].now)
             && RunOf(records[es[i].order[a]]).priority > RunOf(records[es[i].order[b]]).priority + 50
    ensures var y, order := xs[i + 1], es[i].order;
            order[a] in y.records && order[b] in y.records
            && (y.records[order[b]].job.state == Scanning ==>
                  y.records[order[a]].job.state == Scanning
                  || (KnownBytes(y.records[order[a]]) >= cfg.settings.largeScanBytes
                      && |LargeScans(y, cfg.settings)| >= cfg.settings.MaxLarge()))
  {
    hide Apply, Enabled, RecoverAll, LargeScans, KnownBytes;
    var records, now := RecoverAll(xs[i].records, es[i].now, false), es[i].now;
    assert EffectivePriority(records[es[i].order[a]], now) > EffectivePriority(records[es[i].order[b]], now);
    ClaimedInTurn(cfg, xs, es, i, a, b);
  }

  // ---------- what a claim does to a job ----------

  // The job now scans under a worker nobody had before, with its waiting time and current file forgotten.
  predicate TakenOver(rec: Record, after: Record, next: WorkerId, now: Time) {
    var run, run' := RunOf(rec), RunOf(after);
    after.job == rec.job.(state := Scanning, terminal := false)
    && run'.worker.Some? && run'.worker.value >= next && run'.heartbeatAt == Some(now) && run'.leaseExpiresAt.Some?
    && run'.nextAttemptAt.None? && run'.currentFile.None? && run'.attempts == run.attempts + 1
    && run'.files == run.files && run'.failureCount == run.failureCount && run'.pauseRequested == run.pauseRequested
    && run'.verdict == run.verdict && run'.identity == run.identity && run'.rootPath == run.rootPath
  }

  lemma {:induction false} ClaimLoopTakes(x: World, order: seq<JobId>, available: int, large: int, now: Time,
                                          cfg: Settings, id: JobId)
    requires Claimable(x.records, order) && id in x.records
    ensures var y := ClaimLoop(x, order, available, large, now, cfg).0;
            id in y.records
            && (y.records[id] == x.records[id]
                || (available > 0 && id in order && TakenOver(x.records[id], y.records[id], x.nextWorker, now)))
    decreases |order|
  {
    hide IsLarge, TakenOver;
    if order != [] && available > 0 {
      var first, rest := order[0], order[1..];
      assert order == [first] + rest && first in order && first !in rest;
      if IsLarge(x.records[first], cfg) && large >= cfg.MaxLarge() {
        ClaimLoopTakes(x, rest, available, large, now, cfg, id);
      } else {
        var y := ClaimOne(x, first, now, cfg);
        var larger := if IsLarge(x.records[first], cfg) then large + 1 else large;
        StillClaimable(x, first, rest, now, cfg);
        if id == first {
          ClaimTakes(x.records[id], x.nextWorker, now, cfg);
          ClaimLoopSkips(y, rest, available - 1, larger, now, cfg, id);
        } else {
          ClaimLoopTakes(y, rest, available - 1, larger, now, cfg, id);
          if TakenOver(x.records[id], ClaimLoop(y, rest, available - 1, larger, now, cfg).0.records[id], y.nextWorker,
                       now) {
            LaterWorker(x.records[id], ClaimLoop(y, rest, available - 1, larger, now, cfg).0.records[id], y.nextWorker,
                x.nextWorker, now);
          }
        }
      }
    }
  }

  lemma ClaimTakes(rec: Record, w: WorkerId, now: Time, cfg: Settings)
    requires rec.run.Some?
    ensures TakenOver(rec, Claimed(rec, w, now, cfg), w, now)
  {}

  lemma LaterWorker(rec: Record, after: Record, w: WorkerId, v: WorkerId, now: Time)
    requires TakenOver(rec, after, w, now) && v <= w
    ensures TakenOver(rec, after, v, now)
  {}

  // A scheduler cycle hands a job to a new worker only outside maintenance with a working scanner, and only a job
  // that is due once late leases are taken back; it changes nothing of the job but who scans it.
  lemma OnlyDueIsClaimed(cfg: Config, xs: seq<World>, es: seq<Event>, i: nat, id: JobId)
    requires cfg.Valid() && IsRun(cfg, xs, es) && i < |es| && es[i].Schedule?
    requires id in xs[i].records && id in xs[i + 1].records
    requires RunOf(xs[i + 1].records[id]).worker.Some?
    requires RunOf(xs[i + 1].records[id]).worker != RunOf(xs[i].records[id]).worker
    ensures !es[i].maintenance && es[i].canScan
    ensures var rec := xs[i].records[id];
            rec.run.Some? && !rec.run.value.pauseRequested
            && (rec.run.value.nextAttemptAt.Some? ==> rec.run.value.nextAttemptAt.value <= es[i].now)
            && (rec.job.state == ScanPending
                || (rec.job.state == Scanning && rec.run.value.leaseExpiresAt.Some?
                    && rec.run.value.leaseExpiresAt.value <= es[i].now))
    ensures xs[i].records[id].job.state == ScanPending ==>
              TakenOver(xs[i].records[id], xs[i + 1].records[id], xs[i].nextWorker, es[i].now)
  {
    hide Inv, SchedulerCycle, RecoverAll, TakenOver, CandidateOrder, RecordOk, Recovered;
    var x, e, rec := xs[i], es[i], xs[i].records[id];
    RunsKeepInv(cfg, xs, es, i);
    CycleTakes(cfg, x, e.order, e.now, e.maintenance, e.canScan, id);
    assert RecordInv(cfg, x, id);
    RecoveredHolder(rec, e.now);
    DueBefore(rec, e.now);
  }

  lemma RecoveredHolder(rec: Record, now: Time)
    ensures RunOf(Recovered(rec, now, false)).worker.Some? ==>
              RunOf(Recovered(rec, now, false)).worker == RunOf(rec).worker
  {}

  lemma DueBefore(rec: Record, now: Time)
    requires RecordOk(rec) && Due(Recovered(rec, now, false), now)
    ensures rec.run.Some? && !rec.run.value.pauseRequested
    ensures rec.run.value.nextAttemptAt.Some? ==> rec.run.value.nextAttemptAt.value <= now
    ensures rec.job.state == ScanPending
            || (rec.job.state == Scanning && rec.run.value.leaseExpiresAt.Some?
                && rec.run.value.leaseExpiresAt.value <= now)
  {
    hide BooksAgree, NoneInProgress, Release;
  }

  lemma PendingAfterRecovery(rec: Record, after: Record, next: WorkerId, now: Time)
    requires rec.job.state == ScanPending && rec.run.Some?
    requires TakenOver(Recovered(rec, now, false), after, next, now)
    ensures TakenOver(rec, after, next, now)
  {}

  lemma CycleTakes(cfg: Config, x: World, order: seq<JobId>, now: Time, maintenance: bool, canScan: bool, id: JobId)
    requires Inv(cfg, x) && CandidateOrder(RecoverAll(x.records, now, false), order, now) && id in x.records
    ensures var y, rec := SchedulerCycle(x, order, now, maintenance, canScan, cfg.settings).0,
                          Recovered(x.records[id], now, false);
            id in y.records
            && (y.records[id] == rec
                || (!maintenance && canScan && Due(rec, now) && TakenOver(rec, y.records[id], x.nextWorker, now)
                    && (x.records[id].job.state == ScanPending && x.records[id].run.Some? ==>
                          TakenOver(x.records[id], y.records[id], x.nextWorker, now))))
  {
    hide Inv, Active, ActiveLarge, RelaxedControl, ClampedControl, Recovered, ClaimLoop, TakenOver;
    var recovered := RecoverAll(x.records, now, false);
    var x1 := x.(records := recovered, control := ClampedControl(x.control, cfg.settings));
    if !maintenance && canScan {
      var x2 := x1.(control := RelaxedControl(x1.control, x1.records, cfg.settings));
      var available := Max(x2.control.slots - |Active(x2.records, now)|, 0);
      if available != 0 {
        CandidatesAreClaimable(recovered, order, now);
        var large := |ActiveLarge(x2.records, now, cfg.settings)|;
        ClaimLoopTakes(x2, order, available, large, now, cfg.settings, id);
        var after := ClaimLoop(x2, order, available, large, now, cfg.settings).0.records[id];
        if after != recovered[id] && x.records[id].job.state == ScanPending && x.records[id].run.Some? {
          PendingAfterRecovery(x.records[id], after, x.nextWorker, now);
        }
      }
    }
  }

  // ---------- one file at a time, and what is kept ----------

  // A worker in charge starts a pending file none of the pending ones is smaller than; its row gets the fingerprint
  // found on disk, its old result is dropped if that changed, and the byte total moves by the change in size.
  lemma StartIsRecorded(cfg: Config, xs: seq<World>, es: seq<Event>, i: nat)
    requires cfg.Valid() && IsRun(cfg, xs, es) && i < |es| && es[i].Start?
    ensures var w, n := es[i].w, es[i].i;
            HoldsLease(xs[i], w) && HoldsLease(xs[i + 1], w)
            && var run, run' := RunOf(OfWorker(xs[i], w)), RunOf(OfWorker(xs[i + 1], w));
               n < |run.files| && run.files[n].status == Pending
               && (forall j :: 0 <= j < |run.files| && run.files[j].status == Pending ==>
                     run.files[n].stamp.size <= run.files[j].stamp.size)
               && OtherRowsKept(run.files, run'.files, n)
               && run'.files[n].path == run.files[n].path && run'.files[n].stamp == es[i].stamp
               && run'.files[n].status == InProgress && run'.files[n].attempts == run.files[n].attempts + 1
               && (run.files[n].stamp != es[i].stamp ==> run'.files[n].scannedBy.None?)
               && run'.totalBytes == run.totalBytes + es[i].stamp.size - run.files[n].stamp.size
               && run'.currentFile == Some(run.files[n].path) && run'.identity == Some(es[i].identity)
               && xs[i + 1].workers[w].phase
                  == InFlight(run.rootPath.value, n, run.files[n].path, es[i].stamp, es[i].identity)
  {
    hide IdentityDiffers, Inv;
  }

  // A rebuild by the worker in charge keeps every clean or pending result of an unchanged file, as long as the
  // files lie where they did and engine and policy did not change; everything else is pending.
  lemma RebuildKeepsResults(cfg: Config, xs: seq<World>, es: seq<Event>, i: nat, n: nat)
    requires cfg.Valid() && IsRun(cfg, xs, es) && i < |es| && es[i].Prepare? && HoldsLease(xs[i], es[i].w)
    requires n < |es[i].manifest|
    ensures var e, w := es[i], es[i].w;
            HoldsLease(xs[i + 1], w)
            && var run, run' := RunOf(OfWorker(xs[i], w)), RunOf(OfWorker(xs[i + 1], w));
               run'.rootPath == Some(e.root) && run'.identity == Some(e.identity) && |run'.files| == |e.manifest|
               && run'.files[n].path == e.manifest[n].path && run'.files[n].stamp == e.manifest[n].stamp
               && if run.rootPath == Some(e.root) && run.identity == Some(e.identity)
                     && exists row <- run.files :: SameFile(row, e.manifest[n])
                  then run'.files[n] in run.files && SameFile(run'.files[n], e.manifest[n])
                  else run'.files[n].status == Pending
  {
    hide Enabled, RecordInv, HistoryInv, SlotsKept, Prepared;
    var e, w := es[i], es[i].w;
    RunsKeepInv(cfg, xs, es, i);
    assert RecordInv(cfg, xs[i], xs[i].workers[w].job);
    PathsDiffer(cfg, xs[i], xs[i].workers[w].job);
    RebuiltExactly(OfWorker(xs[i], w), w, e.root, e.manifest, e.identity, n);
    PrepareIsApplied(cfg, xs[i], e);
  }

  // The row has a result, or none yet, for this very file.
  predicate SameFile(row: FileRow, e: ManifestEntry) {
    row.path == e.path && row.stamp == e.stamp && (row.status == Clean || row.status == Pending)
  }

  lemma PathsDiffer(cfg: Config, x: World, id: JobId)
    requires id in x.records && RecordInv(cfg, x, id)
    ensures DistinctPaths(RunOf(x.records[id]).files)
    ensures RunOf(x.records[id]).files != [] ==> RunOf(x.records[id]).rootPath.Some?
  {}

  lemma PrepareIsApplied(cfg: Config, x: World, e: Event)
    requires Enabled(cfg, x, e) && e.Prepare? && HoldsLease(x, e.w)
    ensures var y := Apply(cfg, x, e);
            HoldsLease(y, e.w) && OfWorker(y, e.w) == Prepared(OfWorker(x, e.w), e.w, e.root, e.manifest, e.identity)
  {
    hide Rebuild, IdentityDiffers, TotalBytes, CleanFiles, CleanBytes, CanPrepare;
  }

  lemma {:induction false} LookupFinds(files: seq<FileRow>, row: FileRow)
    requires DistinctPaths(files) && row in files
    ensures Lookup(files, row.path) == Some(row)
  {
    if files[0].path == row.path {
      assert files[0] == row;
    } else {
      LookupFinds(files[1..], row);
    }
  }

  lemma RebuiltExactly(rec: Record, w: WorkerId, root: Path, manifest: seq<ManifestEntry>, identity: Identity, n: nat)
    requires Owns(rec, w) && DistinctPaths(rec.run.value.files) && n < |manifest|
    requires rec.run.value.files != [] ==> rec.run.value.rootPath.Some?
    ensures var run, run' := rec.run.value, RunOf(Prepared(rec, w, root, manifest, identity));
            run'.rootPath == Some(root) && run'.identity == Some(identity) && |run'.files| == |manifest|
            && run'.files[n].path == manifest[n].path && run'.files[n].stamp == manifest[n].stamp
            && if run.rootPath == Some(root) && run.identity == Some(identity)
                  && exists row <- run.files :: SameFile(row, manifest[n])
               then run'.files[n] in run.files && SameFile(run'.files[n], manifest[n])
               else run'.files[n].status == Pending
  {
    hide TotalBytes, CleanFiles, CleanBytes;
    var run, entry := rec.run.value, manifest[n];
    var kept := if run.rootPath == Some(root) then run.files else [];
    var known := Lookup(kept, entry.path);
    if known.Some? { LookupFinds(kept, known.value); }
    forall row <- kept | row.path == entry.path
      ensures known == Some(row)
    {
      LookupFinds(kept, row);
    }
  }

  // ---------- the slots ----------

  lemma CycleControl(x: World, order: seq<JobId>, now: Time, maintenance: bool, canScan: bool, cfg: Settings)
    requires CandidateOrder(RecoverAll(x.records, now, false), order, now)
    ensures var y := SchedulerCycle(x, order, now, maintenance, canScan, cfg).0;
            1 <= y.control.slots <= cfg.HardMaxSlots()
            && (y.control.slots == x.control.slots || y.control.slots == cfg.DefaultSlots()
                || x.control.slots < 1 || x.control.slots > cfg.HardMaxSlots())
            && (!maintenance && canScan && y.control.boost ==> InState(y.records, ScanPending) != {})
  {
    hide Active, ActiveLarge, ClaimLoop, CandidateOrder, RecoverAll, InState;
    CandidatesHaveRuns(RecoverAll(x.records, now, false), order, now);
    var x1 := x.(records := RecoverAll(x.records, now, false), control := ClampedControl(x.control, cfg));
    if !maintenance && canScan {
      var x2 := x1.(control := RelaxedControl(x1.control, x1.records, cfg));
      var available := Max(x2.control.slots - |Active(x2.records, now)|, 0);
      if available != 0 {
        CandidatesAreClaimable(x2.records, order, now);
        ClaimLoopTouches(x2, order, available, |ActiveLarge(x2.records, now, cfg)|, now, cfg, 0);
      }
    }
  }

  // The slots are what was set last, or the default once a boost is over; a boost does not outlive the queue it
  // was set for; and nothing else in a run touches them.
  lemma SlotsAfterStep(cfg: Config, xs: seq<World>, es: seq<Event>, i: nat)
    requires cfg.Valid() && IsRun(cfg, xs, es) && i < |es|
    ensures match es[i]
            case SetSlots(n) =>
              xs[i + 1].control.slots == n && (xs[i + 1].control.boost <==> n > cfg.settings.DefaultSlots())
            case Schedule(_, _, maintenance, canScan) =>
              var before, after := xs[i].control, xs[i + 1].control;
              1 <= after.slots <= cfg.settings.HardMaxSlots()
              && (after.slots == before.slots || after.slots == cfg.settings.DefaultSlots()
                  || before.slots < 1 || before.slots > cfg.settings.HardMaxSlots())
              && (!maintenance && canScan && after.boost ==> InState(xs[i + 1].records, ScanPending) != {})
            case _ => xs[i + 1].control == xs[i].control
  {
    hide JobStep, WorkerStep, Prepared, Started, Scanned, FinishedClean, SchedulerCycle, CanPrepare, CanStart,
         Reconcile, RecoverAll, InState, CandidateOrder;
    var e := es[i];
    if e.Schedule? { CycleControl(xs[i], e.order, e.now, e.maintenance, e.canScan, cfg.settings); }
  }
}
