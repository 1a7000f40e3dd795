// The loop of one scan worker, as a run of the controller's steps.
module ScanWorker {
  import opened Options
  import opened ScanModel
  import opened ScanRuns
  import opened ScanStore
  import opened ScanTheorems

  // How the scanner call for one file ends.
  datatype Answered = Scanned(infected: bool, threat: string) | Stopped | Failing | RefusedByPolicy | Away | Drained

  // What the worker finds in one round: the clock, requests, a healthy scanner's identity, the files on disk,
  // a freshly read manifest (None when reading it failed), the guard's answer and the scanner's.
  datatype Look = Look(
    now: Time, stopping: bool, maintenance: bool, identity: Option<Identity>, stat: string -> Option<Fingerprint>,
    manifest: Option<seq<ManifestEntry>>, staged: bool, answer: Answered, shouldYield: bool)

  // Why the worker is done with its claim.
  datatype Ending = Cleared | FoundInfected | Released | HandedBack

  // The steps lead from one state to the other.
  ghost predicate Reaches(cfg: Config, x: World, es: seq<Event>, y: World)
    decreases |es|
  {
    if es == [] then x == y
    else Enabled(cfg, x, es[0]) && Reaches(cfg, Apply(cfg, x, es[0]), es[1..], y)
  }

  lemma {:induction false} ReachesConcat(cfg: Config, x: World, a: seq<Event>, y: World, b: seq<Event>, z: World)
    requires Reaches(cfg, x, a, y) && Reaches(cfg, y, b, z)
    ensures Reaches(cfg, x, a + b, z)
    decreases |a|
  {
    hide Enabled, Apply;
    if a == [] {
      assert a + b == b;
    } else {
      assert (a + b)[0] == a[0] && (a + b)[1..] == a[1..] + b;
      ReachesConcat(cfg, Apply(cfg, x, a[0]), a[1..], y, b, z);
    }
  }

  lemma ReachesOne(cfg: Config, x: World, e: Event, y: World)
    requires Enabled(cfg, x, e) && y == Apply(cfg, x, e)
    ensures Reaches(cfg, x, [e], y)
  {
    hide Enabled, Apply;
    assert [e][1..] == [];
  }

  lemma ReachesTwo(cfg: Config, x: World, e: Event, f: Event, z: World)
    requires Enabled(cfg, x, e) && Enabled(cfg, Apply(cfg, x, e), f) && z == Apply(cfg, Apply(cfg, x, e), f)
    ensures Reaches(cfg, x, [e, f], z)
  {
    hide Enabled, Apply;
    ReachesOne(cfg, x, e, Apply(cfg, x, e));
    ReachesOne(cfg, Apply(cfg, x, e), f, z);
    ReachesConcat(cfg, x, [e], Apply(cfg, x, e), [f], z);
    assert [e] + [f] == [e, f];
  }

  // So a worker's run keeps the invariant of the whole controller.
  lemma {:induction false} ReachesKeepsInv(cfg: Config, x: World, es: seq<Event>, y: World)
    requires cfg.Valid() && Inv(cfg, x) && Reaches(cfg, x, es, y)
    ensures Inv(cfg, y)
    decreases |es|
  {
    hide Enabled, Apply, Inv;
    if es != [] {
      StepKeepsInv(cfg, x, es[0]);
      ReachesKeepsInv(cfg, Apply(cfg, x, es[0]), es[1..], y);
    }
  }

  ghost predicate Ready(c: Controller, claim: Claim)
    reads c
  {
    c.Genuine(claim) && c.workers[claim.worker].phase == AtTop
  }

  // A failure, an interruption or an absent scanner hands the job back.
  method HandBack(c: Controller, claim: Claim, look: Look, answer: Answered) returns (ghost e: Event)
    requires c.Genuine(claim) && !answer.Scanned?
    modifies c
    ensures Enabled(c.cfg, old(c.View()), e) && c.View() == Apply(c.cfg, old(c.View()), e)
  {
    hide Apply;
    match answer {
      case Stopped =>
        e := OnWorker(claim.worker, Interrupt(look.now));
        c.HandleInterruption(claim, look.now);
      case Failing =>
        e := OnWorker(claim.worker, FailAttempt(look.now));
        c.HandleFailure(claim, look.now);
      case RefusedByPolicy =>
        e := OnWorker(claim.worker, Refuse);
        c.HandlePolicyFailure(claim);
      case Away =>
        e := OnWorker(claim.worker, WorkerEvent.Defer(look.now, 30));
        c.DeferClaim(claim, look.now, 30);
      case Drained =>
        e := OnWorker(claim.worker, WorkerEvent.Defer(look.now, 0));
        c.DeferClaim(claim, look.now, 0);
    }
  }

  // The last rebuild and the clean verdict, when nothing is pending any more.
  method TryToFinish(c: Controller, claim: Claim, root: Path, look: Look, identity: Identity)
    returns (ending: Option<Ending>, ghost es: seq<Event>)
    requires Ready(c, claim) && Owns(c.records[claim.job], claim.worker)
    requires NonePending(c.records[claim.job].run.value.files) && c.records[claim.job].run.value.rootPath.Some?
    requires !IdentityDiffers(c.records[claim.job].run.value, identity)
    requires look.manifest.Some? ==> DistinctEntries(look.manifest.value)
    modifies c
    ensures Reaches(c.cfg, old(c.View()), es, c.View())
    ensures ending.None? ==> Ready(c, claim)
    ensures ending == Some(Cleared) ==>
              look.manifest.Some?
              && es == [Prepare(claim.worker, root, look.manifest.value, identity, true), FinishClean(claim.worker)]
  {
    hide Apply, Enabled, Prepared, FinishedClean;
    ghost var x := c.View();
    if look.manifest.None? {
      ghost var e := HandBack(c, claim, look, Failing);
      ReachesOne(c.cfg, x, e, c.View());
      return Some(HandedBack), [e];
    }
    ghost var e := Prepare(claim.worker, root, look.manifest.value, identity, true);
    LastIsEnabled(c.cfg, x, claim.worker, root, look.manifest.value, identity);
    c.PrepareManifest(claim, root, look.manifest.value, identity, true);
    ghost var y := c.View();
    GenuineAfter(x, y, claim);
    if !look.staged {
      ghost var f := HandBack(c, claim, look, Failing);
      ReachesTwo(c.cfg, x, e, f, c.View());
      return Some(HandedBack), [e, f];
    }
    FinishIsEnabled(c.cfg, y, claim.worker);
    var finished := c.FinishCleanScan(claim);
    FinishIs(c.cfg, y, claim.worker);
    ReachesTwo(c.cfg, x, e, FinishClean(claim.worker), c.View());
    es := [e, FinishClean(claim.worker)];
    ending := if finished then Some(Cleared) else None;
  }

  lemma LastIsEnabled(cfg: Config, x: World, w: WorkerId, root: Path, manifest: seq<ManifestEntry>, identity: Identity)
    requires Live(x, w) && x.workers[w].phase == AtTop && DistinctEntries(manifest) && Owns(OfWorker(x, w), w)
    requires NonePending(OfWorker(x, w).run.value.files) && OfWorker(x, w).run.value.rootPath.Some?
    requires !IdentityDiffers(OfWorker(x, w).run.value, identity)
    ensures Enabled(cfg, x, Prepare(w, root, manifest, identity, true))
  {}

  lemma GenuineAfter(x: World, y: World, claim: Claim)
    requires claim.worker in x.workers && x.workers[claim.worker].job == claim.job && claim.job in x.records
    requires claim.job in y.records && claim.worker in y.workers && y.workers[claim.worker].job == claim.job
    ensures Live(y, claim.worker)
  {}

  lemma FinishIsEnabled(cfg: Config, y: World, w: WorkerId)
    requires Live(y, w) && y.workers[w].phase.Rebuilt?
    ensures Enabled(cfg, y, FinishClean(w))
  {}

  lemma FinishIs(cfg: Config, y: World, w: WorkerId)
    requires Live(y, w) && Enabled(cfg, y, FinishClean(w))
    ensures Apply(cfg, y, FinishClean(w)) == AfterFinishClean(y, w)
  {}

  // One round of the worker's loop.
  method Round(c: Controller, claim: Claim, root: Path, look: Look)
    returns (ending: Option<Ending>, ghost es: seq<Event>)
    requires Ready(c, claim) && (look.manifest.Some? ==> DistinctEntries(look.manifest.value))
    modifies c
    ensures Reaches(c.cfg, old(c.View()), es, c.View())
    ensures ending.None? ==> Ready(c, claim)
    ensures ending == Some(Cleared) ==>
              |es| == 2 && es[0].Prepare? && es[0].last && es[0].w == claim.worker && es[1] == FinishClean(claim.worker)
  {
    hide Apply, Enabled, Prepared, Started, ScanModel.Scanned, FinishedClean;
    ghost var x := c.View();
    var rec := c.records[claim.job];
    if rec.run.None? || rec.run.value.worker != Some(claim.worker) || look.stopping {
      ghost var e := HandBack(c, claim, look, Stopped);
      ReachesOne(c.cfg, x, e, c.View());
      return Some(HandedBack), [e];
    }
    var run := rec.run.value;
    if run.pauseRequested {
      var released := c.Checkpoint(claim, false, look.now);
      ReachesOne(c.cfg, x, OnWorker(claim.worker, PauseHere), c.View());
      return Some(Released), [OnWorker(claim.worker, PauseHere)];
    }
    if look.maintenance || look.identity.None? {
      ghost var e := HandBack(c, claim, look, if look.maintenance then Drained else Away);
      ReachesOne(c.cfg, x, e, c.View());
      return Some(HandedBack), [e];
    }
    var identity := look.identity.value;
    if run.rootPath.None? || IdentityDiffers(run, identity) {
      ending, es := RoundPrepares(c, claim, root, look, identity);
      return;
    }
    var pending := SelectPending(run.files);
    if pending.None? {
      ending, es := TryToFinish(c, claim, root, look, identity);
      return;
    }
    ending, es := RoundScans(c, claim, look, identity);
  }

  // Rebuilds the manifest when the engine or policy has changed.
  method RoundPrepares(c: Controller, claim: Claim, root: Path, look: Look, identity: Identity)
    returns (ending: Option<Ending>, ghost es: seq<Event>)
    requires Ready(c, claim) && (look.manifest.Some? ==> DistinctEntries(look.manifest.value))
    modifies c
    ensures Reaches(c.cfg, old(c.View()), es, c.View())
    ensures ending.None? ==> Ready(c, claim)
    ensures ending != Some(Cleared)
  {
    hide Apply, Enabled, Prepared;
    ghost var x := c.View();
    if look.manifest.None? {
      ghost var e := HandBack(c, claim, look, Failing);
      ReachesOne(c.cfg, x, e, c.View());
      return Some(HandedBack), [e];
    }
    ghost var e := Prepare(claim.worker, root, look.manifest.value, identity, false);
    PrepareIsEnabled(c.cfg, x, claim.worker, root, look.manifest.value, identity);
    c.PrepareManifest(claim, root, look.manifest.value, identity, false);
    ReachesOne(c.cfg, x, e, c.View());
    return None, [e];
  }

  lemma PrepareIsEnabled(cfg: Config, x: World, w: WorkerId, root: Path, manifest: seq<ManifestEntry>,
                         identity: Identity)
    requires Live(x, w) && !x.workers[w].phase.InFlight? && DistinctEntries(manifest)
    ensures Enabled(cfg, x, Prepare(w, root, manifest, identity, false))
  {}

  // Scans the smallest pending file, then looks for a pause request or a reason to yield.
  method RoundScans(c: Controller, claim: Claim, look: Look, identity: Identity)
    returns (ending: Option<Ending>, ghost es: seq<Event>)
    requires Ready(c, claim) && Owns(c.records[claim.job], claim.worker)
    requires c.records[claim.job].run.value.rootPath.Some? && !IdentityDiffers(c.records[claim.job].run.value, identity)
    requires !NonePending(c.records[claim.job].run.value.files)
    modifies c
    ensures Reaches(c.cfg, old(c.View()), es, c.View())
    ensures ending.None? ==> Ready(c, claim)
    ensures ending != Some(Cleared)
  {
    hide Apply, Enabled, Started, ScanModel.Scanned;
    ghost var x := c.View();
    var found, started := c.StartFile(claim, look.stat, identity, look.now);
    if !started {
      ghost var e := HandBack(c, claim, look, Failing);
      ReachesOne(c.cfg, x, e, c.View());
      return Some(HandedBack), [e];
    }
    ghost var y := c.View();
    ghost var e := StartOf(c.cfg, x, claim.worker, found.value,
        look.stat(x.records[claim.job].run.value.files[found.value].path).value, identity, look.now);
    if !look.answer.Scanned? {
      ghost var f := HandBack(c, claim, look, look.answer);
      ReachesTwo(c.cfg, x, e, f, c.View());
      return Some(HandedBack), [e, f];
    }
    AnswerIsEnabled(c.cfg, y, claim.worker, look.answer.infected, look.answer.threat);
    var recorded := c.RecordAnswer(claim, found.value, identity, look.answer.infected, look.answer.threat);
    ghost var f := Answer(claim.worker, look.answer.infected, look.answer.threat);
    ghost var z := c.View();
    ReachesTwo(c.cfg, x, e, f, z);
    if look.answer.infected { return Some(FoundInfected), [e, f]; }
    var released := c.Checkpoint(claim, look.shouldYield, look.now);
    ghost var g := OnWorker(claim.worker, if RunOf(z.records[claim.job]).pauseRequested || !look.shouldYield
                                          then PauseHere else WorkerEvent.Yield(look.now));
    ReachesOne(c.cfg, z, g, c.View());
    ReachesConcat(c.cfg, x, [e, f], z, [g], c.View());
    ending := if released then Some(Released) else None;
    es := [e, f] + [g];
  }

  lemma StartOf(cfg: Config, x: World, w: WorkerId, i: nat, stamp: Fingerprint, identity: Identity, now: Time)
    returns (e: Event)
    requires Live(x, w) && CanStart(OfWorker(x, w), w, x.workers[w].phase, i, identity)
    ensures e == Start(w, i, stamp, identity, now) && Enabled(cfg, x, e)
    ensures Apply(cfg, x, e) == AfterStart(cfg, x, w, i, stamp, identity, now)
  {
    e := Start(w, i, stamp, identity, now);
  }

  lemma AnswerIsEnabled(cfg: Config, x: World, w: WorkerId, infected: bool, threat: string)
    requires Live(x, w) && x.workers[w].phase.InFlight?
    ensures Enabled(cfg, x, Answer(w, infected, threat))
    ensures Apply(cfg, x, Answer(w, infected, threat)) == AfterAnswer(x, w, infected, threat)
  {}

  // The whole claim: the first manifest, then rounds until the job is cleared, infected, released or handed back.
  // The last round that clears a job rebuilds the manifest and records the verdict, with nothing in between.
  method RunClaim(c: Controller, claim: Claim, root: Path, looks: seq<Look>)
    returns (ending: Option<Ending>, ghost es: seq<Event>)
    requires Ready(c, claim) && forall look <- looks :: look.manifest.Some? ==> DistinctEntries(look.manifest.value)
    modifies c
    ensures Reaches(c.cfg, old(c.View()), es, c.View())
    ensures c.cfg.Valid() && Inv(c.cfg, old(c.View())) ==> Inv(c.cfg, c.View())
    ensures ending == Some(Cleared) ==>
              |es| >= 2 && es[|es| - 2].Prepare? && es[|es| - 2].last && es[|es| - 1] == FinishClean(claim.worker)
  {
    hide Inv, Apply, Enabled;
    ghost var x := c.View();
    ending, es := None, [];
    for n := 0 to |looks|
      invariant Reaches(c.cfg, x, es, c.View()) && ending.None? && Ready(c, claim)
    {
      ghost var y := c.View();
      var more;
      ghost var fs;
      if n == 0 && looks[n].identity.Some? {
        more, fs := RoundPrepares(c, claim, root, looks[n], looks[n].identity.value);
      } else {
        more, fs := Round(c, claim, root, looks[n]);
      }
      ReachesConcat(c.cfg, x, es, y, fs, c.View());
      es := es + fs;
      if more.Some? {
        ending := more;
        break;
      }
    }
    if c.cfg.Valid() && Inv(c.cfg, x) { ReachesKeepsInv(c.cfg, x, es, c.View()); }
  }
}
