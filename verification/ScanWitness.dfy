// One complete run: a job is submitted, queued, claimed, scanned, cleared and promoted.
// It shows that the theorems about whole runs are about runs that exist.
module ScanWitness {
  import opened Options
  import opened ScanModel
  import opened Promotion
  import opened ScanRuns
  import opened ScanTheorems

  const SETTINGS := Settings(2, 1, 1, 1000, 60, 10, 3, 30)
  const CONFIG := Config(SETTINGS, (p: Path) => Some(p))

  const ENGINE := Identity("1.4", "v5")
  const STAMP := Fingerprint(7, 1, 1, 1, 1)
  const ENTRY := ManifestEntry("a", STAMP)
  const ROOT: Path := ["staging", "x"]
  const FINAL: Path := ["final"]

  const FRESH := Job(AddingToQbt, false, FINAL, None, None, false, false, false, false, false, None, None, false)
  const LOADED := FRESH.(state := DownloadComplete, downloadComplete := true)
  const QUEUED := LOADED.(state := ScanPending)
  const SCANNING := LOADED.(state := Scanning)
  const CLEARED := LOADED.(state := ScanClean, scanCompleted := true)
  const MOVING := CLEARED.(state := Promoting)
  const PROMOTED := CLEARED.(state := Done, terminal := true, promoted := true, contentPath := Some(["final", "x"]))

  const WAITING := NewRun.(queuedAt := Some(0))
  const HELD := WAITING.(worker := Some(0), heartbeatAt := Some(1), leaseExpiresAt := Some(61), attempts := 1)
  const LISTED := HELD.(rootPath := Some(ROOT), identity := Some(ENGINE),
                        files := [FileRow("a", STAMP, Pending, 0, None)], totalFiles := 1, totalBytes := 7)
  const STARTED := LISTED.(files := [FileRow("a", STAMP, InProgress, 1, None)], currentFile := Some("a"),
                           heartbeatAt := Some(2), leaseExpiresAt := Some(62))
  const SCANNED := STARTED.(files := [FileRow("a", STAMP, Clean, 1, Some(ENGINE))], currentFile := None,
                            completedFiles := 1, completedBytes := 7)
  const FINISHED := SCANNED.(worker := None, heartbeatAt := None, leaseExpiresAt := None, verdict := Some(VerdictClean))

  const ANSWER := ScanEvent(0, ROOT, "a", STAMP, ENGINE, false)
  const IN_STAGING := Torrent(false, false, true, ["staging"], ["staging", "x"], true, true, true, true)
  const AT_HOME := Torrent(false, false, true, FINAL, ["final", "x"], true, true, true, true)

  function Holding(job: Job, run: Option<Run>, workers: map<WorkerId, Worker>, log: set<ScanEvent>,
                   cleared: map<JobId, Path>): World {
    World(map[0 := Record(job, run)], Control(1, false), workers, if workers == map[] then 0 else 1, {0}, log, [],
        cleared)
  }

  const BY := map[0 := Worker(0, AtTop)]

  function W0(): World { World(map[], Control(1, false), map[], 0, {}, {}, [], map[]) }

  function W1(): World { Holding(FRESH, None, map[], {}, map[]) }

  function W2(): World { Holding(LOADED, None, map[], {}, map[]) }

  function W3(): World { Holding(QUEUED, Some(WAITING), map[], {}, map[]) }

  function W4(): World { Holding(SCANNING, Some(HELD), BY, {}, map[]) }

  function W5(): World { Holding(SCANNING, Some(LISTED), BY, {}, map[]) }

  function W6(): World {
    Holding(SCANNING, Some(STARTED), map[0 := Worker(0, InFlight(ROOT, 0, "a", STAMP, ENGINE))], {}, map[])
  }

  function W7(): World { Holding(SCANNING, Some(SCANNED), BY, {ANSWER}, map[]) }

  function W8(): World {
    Holding(SCANNING, Some(SCANNED), map[0 := Worker(0, Rebuilt(ROOT, [ENTRY]))], {ANSWER}, map[])
  }

  function W9(): World { Holding(CLEARED, Some(FINISHED), BY, {ANSWER}, map[0 := FINAL]) }

  function W10(): World { Holding(MOVING, Some(FINISHED), BY, {ANSWER}, map[0 := FINAL]).(sent := [(0, FINAL)]) }

  function W11(): World { Holding(PROMOTED, Some(FINISHED), BY, {ANSWER}, map[0 := FINAL]).(sent := [(0, FINAL)]) }

  // One enabled step.
  ghost predicate Leads(x: World, e: Event, y: World) { Enabled(CONFIG, x, e) && Apply(CONFIG, x, e) == y }

  lemma OneRecord(x: World, rec: Record)
    requires x.records.Keys == {0}
    ensures Put(x, 0, rec).records == map[0 := rec]
  {}

  lemma Submitted()
    ensures Leads(W0(), Submit(0, FRESH), W1())
  {
    assert Put(W0(), 0, Record(FRESH, None)).records == map[0 := Record(FRESH, None)];
  }

  lemma Loaded()
    ensures Leads(W1(), OnJob(0, Move(LOADED)), W2())
  {
    OneRecord(W1(), Record(LOADED, None));
  }

  lemma Enqueued()
    ensures Leads(W2(), OnJob(0, Enqueue(0)), W3())
  {
    OneRecord(W2(), Record(QUEUED, Some(WAITING)));
  }

  lemma CountsOfOne(row: FileRow)
    ensures TotalBytes([row]) == row.stamp.size && CleanFiles([row]) == (if row.status == Clean then 1 else 0)
    ensures CleanBytes([row]) == if row.status == Clean then row.stamp.size else 0
  {
    assert [row][1..] == [];
  }

  lemma OneWorker(x: World, phase: Phase)
    requires x.workers.Keys == {0} && x.workers[0].job == 0
    ensures At(x, 0, phase).workers == map[0 := Worker(0, phase)]
  {}

  lemma OneClaim()
    ensures ClaimOne(W3(), 0, 1, SETTINGS) == W4()
  {
    var y := ClaimOne(W3(), 0, 1, SETTINGS);
    OneRecord(W3(), Record(SCANNING, Some(HELD)));
    assert y.workers.Keys == BY.Keys == {0} && y.workers[0] == BY[0];
    assert y.workers == BY;
  }

  lemma SmallJob()
    ensures !IsLarge(W3().records[0], SETTINGS)
  {}

  lemma ClaimedOnce()
    ensures ClaimLoop(W3(), [0], 1, 0, 1, SETTINGS) == (W4(), [Claim(0, 0, false)])
  {
    OneClaim();
    hide ClaimOne, IsLarge, W4;
    SmallJob();
    assert [0][1..] == [];
    assert ClaimLoop(W4(), [], 0, 0, 1, SETTINGS) == (W4(), []);
    assert [Claim(0, 0, false)] + [] == [Claim(0, 0, false)];
  }

  lemma Claimed()
    ensures Leads(W3(), Schedule(1, [0], false, true), W4())
  {
    ClaimedOnce();
    hide ClaimLoop, IsLarge;
    assert RecoverAll(W3().records, 1, false) == W3().records;
    assert InState(W3().records, ScanPending) == {0} by { assert 0 in InState(W3().records, ScanPending); }
    assert Active(W3().records, 1) == {} && ActiveLarge(W3().records, 1, SETTINGS) == {};
  }

  lemma Listed()
    ensures Leads(W4(), Prepare(0, ROOT, [ENTRY], ENGINE, false), W5())
  {
    var row := FileRow("a", STAMP, Pending, 0, None);
    assert Rebuild([], [ENTRY], false) == [row];
    CountsOfOne(row);
    OneRecord(W4(), Record(SCANNING, Some(LISTED)));
    OneWorker(Put(W4(), 0, Record(SCANNING, Some(LISTED))), AtTop);
  }

  lemma Started()
    ensures Leads(W5(), Start(0, 0, STAMP, ENGINE, 2), W6())
  {
    OneRecord(W5(), Record(SCANNING, Some(STARTED)));
    OneWorker(Put(W5(), 0, Record(SCANNING, Some(STARTED))), InFlight(ROOT, 0, "a", STAMP, ENGINE));
    assert LISTED.files[0 := FileRow("a", STAMP, InProgress, 1, None)] == STARTED.files;
  }

  lemma Answered()
    ensures Leads(W6(), Answer(0, false, ""), W7())
  {
    OneRecord(W6(), Record(SCANNING, Some(SCANNED)));
    OneWorker(Put(W6(), 0, Record(SCANNING, Some(SCANNED))), AtTop);
    assert STARTED.files[0 := FileRow("a", STAMP, Clean, 1, Some(ENGINE))] == SCANNED.files;
    assert {} + {ANSWER} == {ANSWER};
  }

  lemma ListedAgain()
    ensures Leads(W7(), Prepare(0, ROOT, [ENTRY], ENGINE, true), W8())
  {
    var row := FileRow("a", STAMP, Clean, 1, Some(ENGINE));
    assert SCANNED.files == [row] && Lookup([row], "a") == Some(row);
    assert Rebuild([row], [ENTRY], false) == [row];
    CountsOfOne(row);
    OneRecord(W7(), Record(SCANNING, Some(SCANNED)));
    OneWorker(Put(W7(), 0, Record(SCANNING, Some(SCANNED))), Rebuilt(ROOT, [ENTRY]));
  }

  lemma Finished()
    ensures Leads(W8(), FinishClean(0), W9())
  {
    OneRecord(W8(), Record(CLEARED, Some(FINISHED)));
    OneWorker(Put(W8(), 0, Record(CLEARED, Some(FINISHED))), AtTop);
    assert map[][0 := FINAL] == map[0 := FINAL];
  }

  lemma Moved()
    ensures Leads(W9(), Promote(0, Some(IN_STAGING), false), W10())
  {
    OneRecord(W9(), Record(MOVING, Some(FINISHED)));
    assert [] + [(0, FINAL)] == [(0, FINAL)];
  }

  lemma Promoted()
    ensures Leads(W10(), Promote(0, Some(AT_HOME), false), W11())
  {
    OneRecord(W10(), Record(PROMOTED, Some(FINISHED)));
  }

  // Such a run exists, its destination is canonical, the folder is sent once, and it ends with the job done.
  lemma ARunExists() returns (xs: seq<World>, es: seq<Event>)
    ensures CONFIG.Valid() && IsRun(CONFIG, xs, es) && |es| == 11
    ensures 0 in xs[8].records && !CleanSide(xs[8].records[0].job.state)
    ensures 0 in xs[9].records && CleanSide(xs[9].records[0].job.state)
    ensures 0 in xs[10].records && xs[10].records[0].job.state == Promoting && xs[10].sent == [(0, FINAL)]
    ensures 0 in xs[11].records && xs[11].records[0].job.state == Done
  {
    hide Leads, W0, W1, W2, W3, W4, W5, W6, W7, W8, W9, W10, W11;
    xs := [W0(), W1(), W2(), W3(), W4(), W5(), W6(), W7(), W8(), W9(), W10(), W11()];
    es := [Submit(0, FRESH), OnJob(0, Move(LOADED)), OnJob(0, Enqueue(0)), Schedule(1, [0], false, true),
           Prepare(0, ROOT, [ENTRY], ENGINE, false), Start(0, 0, STAMP, ENGINE, 2), Answer(0, false, ""),
           Prepare(0, ROOT, [ENTRY], ENGINE, true), FinishClean(0),
           Promote(0, Some(IN_STAGING), false), Promote(0, Some(AT_HOME), false)];
    Submitted();
    Loaded();
    Enqueued();
    Claimed();
    Listed();
    Started();
    Answered();
    ListedAgain();
    Finished();
    Moved();
    Promoted();
    forall i | 0 <= i < |es|
      ensures Leads(xs[i], es[i], xs[i + 1])
    {}
    LeadsIsRun(xs, es);
    Ends();
  }

  lemma LeadsIsRun(xs: seq<World>, es: seq<Event>)
    requires |xs| == |es| + 1 && xs[0] == W0() && forall i :: 0 <= i < |es| ==> Leads(xs[i], es[i], xs[i + 1])
    ensures IsRun(CONFIG, xs, es)
  {
    hide Apply, Enabled;
    assert Initial(xs[0]);
    forall i | 0 <= i < |es|
      ensures Enabled(CONFIG, xs[i], es[i]) && xs[i + 1] == Apply(CONFIG, xs[i], es[i])
    {
      assert Leads(xs[i], es[i], xs[i + 1]);
    }
  }

  lemma Ends()
    ensures 0 in W8().records && !CleanSide(W8().records[0].job.state)
    ensures 0 in W9().records && CleanSide(W9().records[0].job.state)
    ensures 0 in W10().records && W10().records[0].job.state == Promoting && W10().sent == [(0, FINAL)]
    ensures 0 in W11().records && W11().records[0].job.state == Done
    ensures CONFIG.Valid()
  {}
}
