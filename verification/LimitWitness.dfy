// A run in which a job is left pending with a pause request, and one that exceeds the large cap.
module LimitWitness {
  import opened Options
  import opened ScanModel
  import opened Promotion
  import opened ScanRuns
  import opened ScanSafety
  import opened ScanTheorems
  import opened ScanWitness
  import opened ScanLimits

  // ---------- pending with a pause request ----------

  function P5(): World { Holding(SCANNING, Some(HELD.(pauseRequested := true)), BY, {}, map[]) }

  lemma PauseAskedFor()
    ensures Leads(W4(), OnJob(0, Pause), P5())
  {
    OneRecord(W4(), Record(SCANNING, Some(HELD.(pauseRequested := true))));
  }

  lemma CanFail()
    ensures Enabled(CONFIG, P5(), OnWorker(0, FailAttempt(2))) && 0 in P5().records
    ensures FailsDespitePause(CONFIG, P5(), OnWorker(0, FailAttempt(2)), 0)
  {}

  // A job is submitted, queued, claimed, asked to pause, and its scan fails for the first time.
  lemma AStuckRunExists() returns (xs: seq<World>, es: seq<Event>)
    ensures CONFIG.Valid() && IsRun(CONFIG, xs, es) && !NeverStuck(xs)
  {
    hide Leads, W0, W1, W2, W3, W4, P5, Apply, Enabled, FailsDespitePause;
    CanFail();
    var failure := OnWorker(0, FailAttempt(2));
    xs := [W0(), W1(), W2(), W3(), W4(), P5(), Apply(CONFIG, P5(), failure)];
    es := [Submit(0, FRESH), OnJob(0, Move(LOADED)), OnJob(0, Enqueue(0)), Schedule(1, [0], false, true),
           OnJob(0, Pause), failure];
    Submitted();
    Loaded();
    Enqueued();
    ScanWitness.Claimed();
    PauseAskedFor();
    LeadsTo(P5(), failure);
    forall i | 0 <= i < |es|
      ensures Leads(xs[i], es[i], xs[i + 1])
    {}
    LeadsIsRun(xs, es);
    Ends();
    assert FailsDespitePause(CONFIG, xs[5], es[5], 0);
    PendingWithoutPauseExactly(CONFIG, xs, es);
  }

  lemma LeadsTo(x: World, e: Event)
    requires Enabled(CONFIG, x, e)
    ensures Leads(x, e, Apply(CONFIG, x, e))
  {
    hide Apply, Enabled;
  }

  // ---------- two large scans under a cap of one ----------

  const BIG := ManifestEntry("a", Fingerprint(2000, 1, 1, 1, 1))
  const IDLE := Record(LOADED, None)
  const READY := Record(QUEUED, Some(WAITING))

  function Scans(w: WorkerId): Record { Record(SCANNING, Some(HELD.(worker := Some(w)))) }

  function Two(a: Record, b: Record): World {
    World(map[0 := a, 1 := b], Control(2, false), map[], 0, {0, 1}, {}, [], map[])
  }

  function T0(): World { World(map[], Control(2, false), map[], 0, {}, {}, [], map[]) }

  function T1(): World { World(map[0 := Record(FRESH, None)], Control(2, false), map[], 0, {0}, {}, [], map[]) }

  function T7(): World {
    World(map[0 := Scans(0), 1 := Scans(1)], Control(2, false), map[0 := Worker(0, AtTop), 1 := Worker(1, AtTop)], 2,
        {0, 1}, {}, [], map[])
  }

  lemma FirstOfTwo(a: Record, b: Record, c: Record)
    ensures Put(Two(a, b), 0, c) == Two(c, b) && Put(Two(a, b), 1, c) == Two(a, c)
  {
    assert map[0 := a, 1 := b][0 := c] == map[0 := c, 1 := b];
    assert map[0 := a, 1 := b][1 := c] == map[0 := a, 1 := c];
  }

  lemma BothSubmitted()
    ensures Leads(T0(), Submit(0, FRESH), T1())
    ensures Leads(T1(), Submit(1, FRESH), Two(Record(FRESH, None), Record(FRESH, None)))
  {
    assert map[][0 := Record(FRESH, None)] == map[0 := Record(FRESH, None)];
    assert map[0 := Record(FRESH, None)][1 := Record(FRESH, None)]
        == map[0 := Record(FRESH, None), 1 := Record(FRESH, None)];
    assert {0} + {1} == {0, 1};
  }

  lemma BothLoaded()
    ensures Leads(Two(Record(FRESH, None), Record(FRESH, None)), OnJob(0, Move(LOADED)), Two(IDLE, Record(FRESH, None)))
    ensures Leads(Two(IDLE, Record(FRESH, None)), OnJob(1, Move(LOADED)), Two(IDLE, IDLE))
  {
    FirstOfTwo(Record(FRESH, None), Record(FRESH, None), IDLE);
    FirstOfTwo(IDLE, Record(FRESH, None), IDLE);
  }

  lemma BothEnqueued()
    ensures Leads(Two(IDLE, IDLE), OnJob(0, Enqueue(0)), Two(READY, IDLE))
    ensures Leads(Two(READY, IDLE), OnJob(1, Enqueue(0)), Two(READY, READY))
  {
    FirstOfTwo(IDLE, IDLE, READY);
    FirstOfTwo(READY, IDLE, READY);
  }

  function T6(): World { Two(READY, READY) }

  function HalfClaimed(): World {
    World(map[0 := Scans(0), 1 := READY], Control(2, false), map[0 := Worker(0, AtTop)], 1, {0, 1}, {}, [], map[])
  }

  lemma FirstClaim()
    ensures ClaimOne(T6(), 0, 1, SETTINGS) == HalfClaimed() && !IsLarge(READY, SETTINGS)
  {
    assert map[0 := READY, 1 := READY][0 := Scans(0)] == map[0 := Scans(0), 1 := READY];
    assert map[][0 := Worker(0, AtTop)] == map[0 := Worker(0, AtTop)];
  }

  lemma SecondClaim()
    ensures ClaimOne(HalfClaimed(), 1, 1, SETTINGS) == T7()
  {
    assert map[0 := Scans(0), 1 := READY][1 := Scans(1)] == map[0 := Scans(0), 1 := Scans(1)];
    assert map[0 := Worker(0, AtTop)][1 := Worker(1, AtTop)] == map[0 := Worker(0, AtTop), 1 := Worker(1, AtTop)];
  }

  lemma BothClaims()
    ensures ClaimLoop(T6(), [0, 1], 2, 0, 1, SETTINGS).0 == T7()
  {
    hide ClaimOne, IsLarge;
    FirstClaim();
    SecondClaim();
    assert [0, 1][1..] == [1] && [1][1..] == [];
    assert ClaimLoop(T7(), [], 0, 0, 1, SETTINGS).0 == T7();
    assert ClaimLoop(HalfClaimed(), [1], 1, 0, 1, SETTINGS).0 == T7();
  }

  lemma ReadyToClaim()
    ensures RecoverAll(T6().records, 1, false) == T6().records && CandidateOrder(T6().records, [0, 1], 1)
    ensures Active(T6().records, 1) == {} && ActiveLarge(T6().records, 1, SETTINGS) == {}
    ensures ClampedControl(T6().control, SETTINGS) == T6().control
    ensures forall records :: RelaxedControl(T6().control, records, SETTINGS) == T6().control
  {}

  lemma BothClaimed()
    ensures Leads(T6(), Schedule(1, [0, 1], false, true), T7())
  {
    hide ClaimLoop, RecoverAll, Active, ActiveLarge, ClampedControl, RelaxedControl, CandidateOrder;
    ReadyToClaim();
    BothClaims();
    var x := T6();
    assert x.(records := x.records, control := x.control) == x && T7().(control := x.control) == T7();
  }

  // A worker that has claimed a job of unknown size finds it large.
  lemma FindsItLarge(x: World, w: WorkerId)
    requires w in x.workers && x.workers[w] == Worker(w, AtTop) && w in x.records && x.records[w] == Scans(w)
    ensures Enabled(CONFIG, x, Prepare(w, ROOT, [BIG], ENGINE, false))
    ensures TurnsLarge(CONFIG, x, Prepare(w, ROOT, [BIG], ENGINE, false))
  {
    assert ManifestBytes([BIG]) == 2000 by { assert [BIG][1..] == []; }
  }

  lemma SecondIsLeft()
    requires Enabled(CONFIG, T7(), Prepare(0, ROOT, [BIG], ENGINE, false))
    ensures var y := Apply(CONFIG, T7(), Prepare(0, ROOT, [BIG], ENGINE, false));
            1 in y.workers && y.workers[1] == Worker(1, AtTop) && 1 in y.records && y.records[1] == Scans(1)
  {}

  lemma CapAtStart()
    ensures SETTINGS.MaxLarge() == 1 && LargeScans(T7(), SETTINGS) == {}
  {}

  // Two jobs of unknown size are claimed together, and both turn out to be large.
  lemma ARunBeyondTheCapExists() returns (xs: seq<World>, es: seq<Event>)
    ensures CONFIG.Valid() && IsRun(CONFIG, xs, es) && !WithinLargeCap(CONFIG, xs[|es|])
  {
    hide Leads, T0, T1, Two, T7, Apply, Enabled, TurnsLarge, LargeScans, Inv;
    var first, second := Prepare(0, ROOT, [BIG], ENGINE, false), Prepare(1, ROOT, [BIG], ENGINE, false);
    AtTheTop();
    FindsItLarge(T7(), 0);
    SecondIsLeft();
    var x8 := Apply(CONFIG, T7(), first);
    FindsItLarge(x8, 1);
    var added := Record(FRESH, None);
    xs := [T0(), T1(), Two(added, added), Two(IDLE, added), Two(IDLE, IDLE), Two(READY, IDLE), Two(READY, READY), T7(),
           x8, Apply(CONFIG, x8, second)];
    es := [Submit(0, FRESH), Submit(1, FRESH), OnJob(0, Move(LOADED)), OnJob(1, Move(LOADED)), OnJob(0, Enqueue(0)),
           OnJob(1, Enqueue(0)), Schedule(1, [0, 1], false, true), first, second];
    BothSubmitted();
    BothLoaded();
    BothEnqueued();
    BothClaimed();
    LeadsTo(T7(), first);
    LeadsTo(x8, second);
    forall i | 0 <= i < |es|
      ensures Leads(xs[i], es[i], xs[i + 1])
    {}
    StepsAreRun(xs, es);
    Ends();
    RunsKeepInv(CONFIG, xs, es, 7);
    RunsKeepInv(CONFIG, xs, es, 8);
    CapAtStart();
    OneMoreLarge(CONFIG, T7(), first);
    OneMoreLarge(CONFIG, x8, second);
  }

  lemma AtTheTop()
    ensures forall w :: w == 0 || w == 1 ==>
              w in T7().workers && T7().workers[w] == Worker(w, AtTop)
              && w in T7().records && T7().records[w] == Scans(w)
  {}

  lemma StepsAreRun(xs: seq<World>, es: seq<Event>)
    requires |xs| == |es| + 1 && xs[0] == T0() && forall i :: 0 <= i < |es| ==> Leads(xs[i], es[i], xs[i + 1])
    ensures IsRun(CONFIG, xs, es)
  {
    hide Apply, Enabled;
    assert Initial(xs[0]);
    forall i | 0 <= i < |es|
      ensures Enabled(CONFIG, xs[i], es[i]) && xs[i + 1] == Apply(CONFIG, xs[i], es[i])
    {
      assert Leads(xs[i], es[i], xs[i + 1]);
    }
  }
}
