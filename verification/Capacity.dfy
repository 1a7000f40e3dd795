// Local staging space: which jobs may download there, decided job by job in creation order.
module Capacity {
  import opened Options

  // Where a local job stands; `ScanSide` jobs are passed over until their scan and promotion are done.
  datatype State = Downloading | WaitingForSpace | WaitingForNas | ScanSide

  datatype LocalJob = LocalJob(state: State, size: Option<nat>, remaining: nat, paused: bool, onNas: bool)

  datatype Overflow = ToNas | Queue

  datatype Config = Config(localMax: nat, buffer: nat, overflow: Overflow)

  function AtLeastZero(n: int): nat { if n < 0 then 0 else n }

  // ---------- bytes still to fetch ----------

  // What qBittorrent says of a torrent; progress is between 0 and 1.
  datatype Torrent = Torrent(amountLeft: Option<int>, size: Option<int>, totalSize: Option<int>, progress: real)

  function Positive(n: Option<int>): Option<nat> {
    if n.Some? && n.value > 0 then Some(n.value) else None
  }

  // `size or total_size or fallback`: zero counts as missing, a negative value is kept and then refused.
  function DeclaredSize(t: Torrent, fallback: Option<nat>): Option<nat> {
    if t.size.Some? && t.size.value != 0 then Positive(t.size)
    else if t.totalSize.Some? && t.totalSize.value != 0 then Positive(t.totalSize)
    else if fallback.Some? then Positive(Some(fallback.value))
    else None
  }

  function Remaining(t: Torrent, fallback: Option<nat>, localMax: nat): nat {
    if t.amountLeft.Some? && t.amountLeft.value >= 0 then t.amountLeft.value
    else
      var size := DeclaredSize(t, fallback);
      if size.None? then localMax else LeftOf(size.value, t.progress)
  }

  function LeftOf(size: nat, progress: real): nat {
    if progress <= 0.0 then size
    else if progress >= 1.0 then 0
    else AtLeastZero(Part(size, 1.0 - progress))
  }

  function Part(size: nat, share: real): int { (size as real * share).Floor }

  // The estimate never exceeds the declared size and never grows with progress.
  lemma RemainingIsAnEstimate(t: Torrent, later: Torrent, fallback: Option<nat>, localMax: nat)
    requires (t.amountLeft.Some? ==> t.amountLeft.value < 0) && later == t.(progress := later.progress)
    requires DeclaredSize(t, fallback).Some? && t.progress <= later.progress
    ensures Remaining(t, fallback, localMax) <= DeclaredSize(t, fallback).value
    ensures Remaining(later, fallback, localMax) <= Remaining(t, fallback, localMax)
    ensures later.progress >= 1.0 ==> Remaining(later, fallback, localMax) == 0
  {
    LeftShrinks(DeclaredSize(t, fallback).value, t.progress, later.progress);
  }

  // What is left to fetch is what qBittorrent reports, if it does; else all of the first size that is not zero
  // among the three, at the start of the download, and the local limit if there is none or it is negative.
  lemma RemainingIsReported(t: Torrent, fallback: Option<nat>, localMax: nat, n: nat)
    ensures t.amountLeft == Some(n) ==> Remaining(t, fallback, localMax) == n
    ensures (t.amountLeft.None? || t.amountLeft.value < 0) && t.progress <= 0.0 ==>
              var first := if t.size.Some? && t.size.value != 0 then t.size
                           else if t.totalSize.Some? && t.totalSize.value != 0 then t.totalSize
                           else if fallback.Some? then Some(fallback.value) else None;
              Remaining(t, fallback, localMax) == if first.Some? && first.value > 0 then first.value else localMax
  {}

  lemma LeftShrinks(size: nat, p: real, q: real)
    requires p <= q
    ensures LeftOf(size, q) <= LeftOf(size, p) <= size
  {
    hide Part;
    PartOfAll(size);
    if 0.0 < q < 1.0 {
      PartGrows(size, 1.0 - q, 1.0);
      PartGrows(size, 1.0 - q, 1.0 - p);
    }
    if 0.0 < p < 1.0 { PartGrows(size, 1.0 - p, 1.0); }
  }

  lemma PartOfAll(size: nat)
    ensures Part(size, 1.0) == size
  {
    assert size as real * 1.0 == size as real;
  }

  lemma PartGrows(size: nat, a: real, b: real)
    requires a <= b
    ensures Part(size, a) <= Part(size, b)
  {
    var less, more := size as real * a, size as real * b;
    assert less <= more by { TimesGrows(size as real, a, b); }
    FloorGrows(less, more);
  }

  lemma TimesGrows(size: real, a: real, b: real)
    requires size >= 0.0 && a <= b
    ensures size * a <= size * b
  {
    var gap := b - a;
    assert size * gap >= 0.0;
    assert size * b == size * (a + gap) == size * a + size * gap;
  }

  lemma FloorGrows(a: real, b: real)
    requires a <= b
    ensures a.Floor <= b.Floor
  {}

  // ---------- reservations ----------

  // Jobs whose bytes are reserved: those on local staging, except a paused one bound for its NAS.
  predicate Counted(j: LocalJob) { !j.onNas && !(j.state == WaitingForNas && j.paused) && j.remaining > 0 }

  function Reserved(jobs: seq<LocalJob>): nat {
    if jobs == [] then 0
    else Reserved(jobs[..|jobs| - 1]) + if Counted(jobs[|jobs| - 1]) then jobs[|jobs| - 1].remaining else 0
  }

  function Total(sizes: seq<nat>): nat {
    if sizes == [] then 0 else Total(sizes[..|sizes| - 1]) + sizes[|sizes| - 1]
  }

  // `foreign` are the remaining bytes of local torrents that are not local jobs.
  method CapacitySnapshot(free: int, foreign: seq<nat>, jobs: seq<LocalJob>, current: nat, cfg: Config)
    returns (safe: nat, reservedBefore: nat, currentRemaining: nat)
    requires current < |jobs|
    ensures safe == AtLeastZero(free - cfg.buffer)
    ensures currentRemaining == if Counted(jobs[current]) then jobs[current].remaining else 0
    ensures currentRemaining == if jobs[current].onNas || (jobs[current].state == WaitingForNas && jobs[current].paused)
                                then 0 else jobs[current].remaining
    ensures currentRemaining > 0 ==> reservedBefore == Total(foreign) + Reserved(jobs[..current])
  {
    safe := AtLeastZero(free - cfg.buffer);
    reservedBefore, currentRemaining := 0, 0;
    assert foreign[..0] == [];
    for n := 0 to |foreign|
      invariant reservedBefore == Total(foreign[..n])
    {
      assert foreign[..n + 1][..n] == foreign[..n];
      if foreign[n] == 0 { continue; }
      reservedBefore := reservedBefore + foreign[n];
    }
    assert foreign[..|foreign|] == foreign && jobs[..0] == [];
    for n := 0 to |jobs|
      invariant reservedBefore == Total(foreign) + Reserved(jobs[..n])
      invariant currentRemaining == 0 && (current < n ==> !Counted(jobs[current]))
    {
      assert jobs[..n + 1][..n] == jobs[..n];
      var j := jobs[n];
      if j.onNas { continue; }
      if j.state == WaitingForNas && j.paused { continue; }
      if j.remaining == 0 { continue; }
      if n == current {
        currentRemaining := j.remaining;
        break;
      }
      reservedBefore := reservedBefore + j.remaining;
    }
  }

  // ---------- the policy ----------

  // A job goes to its NAS, or waits for it paused while the NAS is away.
  function MovedToNas(j: LocalJob, available: bool): LocalJob {
    if available then j.(onNas := true, state := Downloading, paused := false)
    else j.(state := WaitingForNas, paused := true)
  }

  function Policy(j: LocalJob, reservedBefore: nat, safe: nat, cfg: Config, available: bool): LocalJob {
    if j.onNas || j.state == ScanSide then j
    else if j.state == WaitingForNas then MovedToNas(j, available)
    else if j.size.Some? && j.size.value > cfg.localMax then MovedToNas(j, available)
    else if j.remaining == 0 then j
    else if reservedBefore + j.remaining <= safe then
      if j.state == WaitingForSpace then j.(state := Downloading, paused := false) else j
    else if cfg.overflow == ToNas then MovedToNas(j, available)
    else if j.state == WaitingForSpace && j.paused then j
    else j.(state := WaitingForSpace, paused := true)
  }

  // The jobs once the first `n` have been looked at; `nas` says whose NAS is available.
  function Pass(jobs: seq<LocalJob>, n: nat, foreign: nat, safe: nat, cfg: Config, nas: nat -> bool): (r: seq<LocalJob>)
    requires n <= |jobs|
    ensures |r| == |jobs| && r[n..] == jobs[n..]
  {
    if n == 0 then jobs
    else
      var before := Pass(jobs, n - 1, foreign, safe, cfg, nas);
      assert before[n - 1] == before[n - 1..][0] == jobs[n - 1..][0] == jobs[n - 1];
      before[n - 1 := Policy(jobs[n - 1], foreign + Reserved(before[..n - 1]), safe, cfg, nas(n - 1))]
  }

  lemma PassStarts(jobs: seq<LocalJob>, foreign: nat, safe: nat, cfg: Config, nas: nat -> bool)
    ensures Pass(jobs, 0, foreign, safe, cfg, nas) == jobs
  {}

  lemma PassedOn(jobs: seq<LocalJob>, n: nat, foreign: nat, safe: nat, cfg: Config, nas: nat -> bool)
    requires n < |jobs|
    ensures var before := Pass(jobs, n, foreign, safe, cfg, nas);
            Pass(jobs, n + 1, foreign, safe, cfg, nas)
            == before[n := Policy(jobs[n], foreign + Reserved(before[..n]), safe, cfg, nas(n))]
    ensures jobs[n].state == ScanSide ==>
              jobs[n] == Policy(jobs[n], foreign + Reserved(Pass(jobs, n, foreign, safe, cfg, nas)[..n]), safe, cfg,
                                nas(n))
  {}

  class LocalStaging {
    var jobs: seq<LocalJob>

    method MoveToNas(i: nat, available: bool)
      requires i < |jobs|
      modifies this
      ensures jobs == old(jobs)[i := MovedToNas(old(jobs)[i], available)]
    {
      jobs := jobs[i := jobs[i].(paused := true)];
      if !available {
        jobs := jobs[i := jobs[i].(state := WaitingForNas)];
        return;
      }
      jobs := jobs[i := jobs[i].(paused := false, onNas := true, state := Downloading)];
    }

    method ApplyLocalStagingPolicy(i: nat, free: int, foreign: seq<nat>, cfg: Config, available: bool)
      requires i < |jobs| && jobs[i].state != ScanSide
      modifies this
      ensures jobs == old(jobs)[i := Policy(old(jobs)[i], Total(foreign) + Reserved(old(jobs)[..i]),
                                            AtLeastZero(free - cfg.buffer), cfg, available)]
    {
      var job := jobs[i];
      assert jobs[i := job] == jobs;
      if job.onNas { return; }
      if job.state == WaitingForNas {
        MoveToNas(i, available);
        return;
      }
      if job.size.Some? && job.size.value > cfg.localMax {
        MoveToNas(i, available);
        return;
      }
      var safe, reservedBefore, currentRemaining := CapacitySnapshot(free, foreign, jobs, i, cfg);
      if currentRemaining <= 0 { return; }
      if reservedBefore + currentRemaining <= safe {
        if job.state == WaitingForSpace { jobs := jobs[i := job.(state := Downloading, paused := false)]; }
        return;
      }
      if cfg.overflow == ToNas {
        MoveToNas(i, available);
        return;
      }
      if job.state == WaitingForSpace && job.paused { return; }
      jobs := jobs[i := job.(state := WaitingForSpace, paused := true)];
    }

    // One pass over all jobs in creation order; jobs on the scan side are passed over.
    method RunPass(free: int, foreign: seq<nat>, cfg: Config, nas: nat -> bool)
      modifies this
      ensures jobs == Pass(old(jobs), |old(jobs)|, Total(foreign), AtLeastZero(free - cfg.buffer), cfg, nas)
    {
      hide Policy, Pass, Reserved, Total;
      ghost var first := jobs;
      PassStarts(first, Total(foreign), AtLeastZero(free - cfg.buffer), cfg, nas);
      for n := 0 to |jobs|
        invariant |jobs| == |first|
        invariant jobs == Pass(first, n, Total(foreign), AtLeastZero(free - cfg.buffer), cfg, nas)
      {
        ghost var before := jobs;
        assert jobs[n] == jobs[n..][0] == first[n..][0] == first[n];
        PassedOn(first, n, Total(foreign), AtLeastZero(free - cfg.buffer), cfg, nas);
        if jobs[n].state == ScanSide {
          assert before[n := before[n]] == before;
          continue;
        }
        ApplyLocalStagingPolicy(n, free, foreign, cfg, nas(n));
      }
    }
  }

  // ---------- no overcommit ----------

  // A job that is downloading to local staging after the pass and still has bytes to fetch.
  predicate Admitted(j: LocalJob) { !j.onNas && j.state == Downloading && j.remaining > 0 }

  function AdmittedBytes(jobs: seq<LocalJob>): nat {
    if jobs == [] then 0
    else AdmittedBytes(jobs[..|jobs| - 1]) + if Admitted(jobs[|jobs| - 1]) then jobs[|jobs| - 1].remaining else 0
  }

  lemma {:induction false} AdmittedAreReserved(jobs: seq<LocalJob>)
    ensures AdmittedBytes(jobs) <= Reserved(jobs)
  {
    if jobs != [] { AdmittedAreReserved(jobs[..|jobs| - 1]); }
  }

  lemma AdmittedFits(j: LocalJob, reservedBefore: nat, safe: nat, cfg: Config, available: bool)
    ensures var after := Policy(j, reservedBefore, safe, cfg, available);
            after.remaining == j.remaining && (Admitted(after) ==> reservedBefore + j.remaining <= safe)
  {}

  // What the first jobs look like does not change when later ones are looked at.
  lemma {:induction false} PassIsInOrder(jobs: seq<LocalJob>, k: nat, n: nat, foreign: nat, safe: nat, cfg: Config,
      nas: nat -> bool)
    requires k <= n <= |jobs|
    ensures Pass(jobs, n, foreign, safe, cfg, nas)[..k] == Pass(jobs, k, foreign, safe, cfg, nas)[..k]
  {
    if k < n { PassIsInOrder(jobs, k, n - 1, foreign, safe, cfg, nas); }
  }

  lemma Decided(jobs: seq<LocalJob>, i: nat, foreign: nat, safe: nat, cfg: Config, nas: nat -> bool)
    requires i < |jobs|
    ensures var done := Pass(jobs, |jobs|, foreign, safe, cfg, nas);
            done[i] == Policy(jobs[i], foreign + Reserved(done[..i]), safe, cfg, nas(i))
  {
    PassIsInOrder(jobs, i + 1, |jobs|, foreign, safe, cfg, nas);
    PassIsInOrder(jobs, i, |jobs|, foreign, safe, cfg, nas);
    var done, at := Pass(jobs, |jobs|, foreign, safe, cfg, nas), Pass(jobs, i + 1, foreign, safe, cfg, nas);
    assert done[i] == done[..i + 1][i] == at[..i + 1][i] == at[i];
  }

  // After a pass, the bytes of foreign torrents and of every admitted job fit together into the safe space.
  lemma NoOvercommit(jobs: seq<LocalJob>, foreign: nat, safe: nat, cfg: Config, nas: nat -> bool)
    ensures var done := Pass(jobs, |jobs|, foreign, safe, cfg, nas);
            AdmittedBytes(done) > 0 ==> foreign + AdmittedBytes(done) <= safe
  {
    var done := Pass(jobs, |jobs|, foreign, safe, cfg, nas);
    FirstFit(jobs, |jobs|, foreign, safe, cfg, nas);
    assert done[..|jobs|] == done;
  }

  lemma {:induction false} FirstFit(jobs: seq<LocalJob>, n: nat, foreign: nat, safe: nat, cfg: Config, nas: nat -> bool)
    requires n <= |jobs|
    ensures var done := Pass(jobs, |jobs|, foreign, safe, cfg, nas);
            AdmittedBytes(done[..n]) > 0 ==> foreign + AdmittedBytes(done[..n]) <= safe
  {
    if n > 0 {
      var done := Pass(jobs, |jobs|, foreign, safe, cfg, nas);
      FirstFit(jobs, n - 1, foreign, safe, cfg, nas);
      Decided(jobs, n - 1, foreign, safe, cfg, nas);
      AdmittedFits(jobs[n - 1], foreign + Reserved(done[..n - 1]), safe, cfg, nas(n - 1));
      AdmittedAreReserved(done[..n - 1]);
      assert done[..n][..n - 1] == done[..n - 1];
    }
  }

  // ---------- jobs the pass does not look at ----------

  // A job on the scan side that still has bytes to fetch to local staging.
  predicate StillFetching(j: LocalJob) { !j.onNas && j.state == ScanSide && j.remaining > 0 }

  function RunningBytes(jobs: seq<LocalJob>): nat {
    if jobs == [] then 0
    else
      var last := jobs[|jobs| - 1];
      RunningBytes(jobs[..|jobs| - 1]) + if Admitted(last) || StillFetching(last) then last.remaining else 0
  }

  // A job the pass might admit.
  predicate Admissible(j: LocalJob, cfg: Config) {
    !j.onNas && (j.state == Downloading || j.state == WaitingForSpace) && j.remaining > 0
    && (j.size.Some? ==> j.size.value <= cfg.localMax)
  }

  predicate NoLateFetching(jobs: seq<LocalJob>, cfg: Config) {
    forall i, k :: 0 <= i < k < |jobs| && Admissible(jobs[i], cfg) ==> !StillFetching(jobs[k])
  }

  // Everything that runs fits whenever something was admitted.
  predicate RunningFits(jobs: seq<LocalJob>, foreign: nat, safe: nat, cfg: Config, nas: nat -> bool) {
    var done := Pass(jobs, |jobs|, foreign, safe, cfg, nas);
    AdmittedBytes(done) > 0 ==> foreign + RunningBytes(done) <= safe
  }

  lemma PolicyKinds(j: LocalJob, reservedBefore: nat, safe: nat, cfg: Config, available: bool)
    ensures var after := Policy(j, reservedBefore, safe, cfg, available);
            after.remaining == j.remaining
            && (Admitted(after) ==> Admissible(j, cfg)) && (StillFetching(after) <==> StillFetching(j))
            && (available && !Admissible(j, cfg) ==> (Counted(after) <==> StillFetching(j)) && !Admitted(after))
            && (Admissible(j, cfg) && reservedBefore + j.remaining <= safe ==> Admitted(after))
  {}

  lemma {:induction false} RunningAreReserved(jobs: seq<LocalJob>)
    ensures AdmittedBytes(jobs) <= RunningBytes(jobs) <= Reserved(jobs)
  {
    if jobs != [] { RunningAreReserved(jobs[..|jobs| - 1]); }
  }

  lemma {:induction false} NothingAdmitted(jobs: seq<LocalJob>)
    requires forall j <- jobs :: !Admitted(j)
    ensures AdmittedBytes(jobs) == 0
  {
    if jobs != [] { NothingAdmitted(jobs[..|jobs| - 1]); }
  }

  lemma {:induction false} RunningFitsSoFar(jobs: seq<LocalJob>, n: nat, foreign: nat, safe: nat, cfg: Config,
      nas: nat -> bool)
    requires n <= |jobs| && NoLateFetching(jobs, cfg)
    ensures var done := Pass(jobs, |jobs|, foreign, safe, cfg, nas)[..n];
            AdmittedBytes(done) > 0 ==> foreign + RunningBytes(done) <= safe
  {
    hide Policy, Pass;
    if n > 0 {
      var done := Pass(jobs, |jobs|, foreign, safe, cfg, nas);
      RunningFitsSoFar(jobs, n - 1, foreign, safe, cfg, nas);
      Decided(jobs, n - 1, foreign, safe, cfg, nas);
      AdmittedFits(jobs[n - 1], foreign + Reserved(done[..n - 1]), safe, cfg, nas(n - 1));
      PolicyKinds(jobs[n - 1], foreign + Reserved(done[..n - 1]), safe, cfg, nas(n - 1));
      RunningAreReserved(done[..n - 1]);
      assert done[..n][..n - 1] == done[..n - 1];
      if StillFetching(jobs[n - 1]) {
        forall i | 0 <= i < n - 1
          ensures !Admitted(done[i])
        {
          Decided(jobs, i, foreign, safe, cfg, nas);
          PolicyKinds(jobs[i], foreign + Reserved(done[..i]), safe, cfg, nas(i));
        }
        NothingAdmitted(done[..n - 1]);
      }
    }
  }

  // Before the first admissible job only jobs on the scan side are reserved for.
  lemma {:induction false} OnlyFetchingReserved(jobs: seq<LocalJob>, n: nat, safe: nat, cfg: Config)
    requires n <= |jobs| && forall i :: 0 <= i < n ==> !Admissible(jobs[i], cfg)
    ensures var done := Pass(jobs, |jobs|, 0, safe, cfg, _ => true)[..n];
            Reserved(done) == RunningBytes(done) == FetchingBytes(jobs[..n])
  {
    hide Policy, Pass;
    if n > 0 {
      var done := Pass(jobs, |jobs|, 0, safe, cfg, _ => true);
      OnlyFetchingReserved(jobs, n - 1, safe, cfg);
      Decided(jobs, n - 1, 0, safe, cfg, _ => true);
      PolicyKinds(jobs[n - 1], Reserved(done[..n - 1]), safe, cfg, true);
      assert done[..n][..n - 1] == done[..n - 1] && jobs[..n][..n - 1] == jobs[..n - 1];
    }
  }

  function FetchingBytes(jobs: seq<LocalJob>): nat {
    if jobs == [] then 0
    else FetchingBytes(jobs[..|jobs| - 1]) + if StillFetching(jobs[|jobs| - 1]) then jobs[|jobs| - 1].remaining else 0
  }

  lemma {:induction false} RunningGrows(jobs: seq<LocalJob>, i: nat, j: nat)
    requires i < j <= |jobs|
    ensures RunningBytes(jobs[..j])
         >= RunningBytes(jobs[..i]) + if Admitted(jobs[i]) || StillFetching(jobs[i]) then jobs[i].remaining else 0
  {
    assert jobs[..j][..j - 1] == jobs[..j - 1];
    if i < j - 1 { RunningGrows(jobs, i, j - 1); }
  }

  lemma {:induction false} AdmittedSome(jobs: seq<LocalJob>, i: nat)
    requires i < |jobs| && Admitted(jobs[i])
    ensures AdmittedBytes(jobs) >= jobs[i].remaining > 0
  {
    if i < |jobs| - 1 { AdmittedSome(jobs[..|jobs| - 1], i); }
  }

  // With a job on the scan side still fetching behind an admissible one, some amount of space is overcommitted.
  lemma LateFetchingOvercommits(jobs: seq<LocalJob>, cfg: Config, i: nat, k: nat) returns (safe: nat)
    requires i < k < |jobs| && Admissible(jobs[i], cfg) && StillFetching(jobs[k])
    requires forall n :: 0 <= n < i ==> !Admissible(jobs[n], cfg)
    ensures !RunningFits(jobs, 0, safe, cfg, _ => true)
  {
    hide Policy, Pass;
    safe := FetchingBytes(jobs[..i]) + jobs[i].remaining;
    var done := Pass(jobs, |jobs|, 0, safe, cfg, _ => true);
    OnlyFetchingReserved(jobs, i, safe, cfg);
    Decided(jobs, i, 0, safe, cfg, _ => true);
    PolicyKinds(jobs[i], Reserved(done[..i]), safe, cfg, true);
    Decided(jobs, k, 0, safe, cfg, _ => true);
    PolicyKinds(jobs[k], Reserved(done[..k]), safe, cfg, true);
    AdmittedSome(done, i);
    RunningOfTwo(done, i, k);
  }

  lemma RunningOfTwo(jobs: seq<LocalJob>, i: nat, k: nat)
    requires i < k < |jobs| && Admitted(jobs[i]) && StillFetching(jobs[k])
    ensures RunningBytes(jobs) >= RunningBytes(jobs[..i]) + jobs[i].remaining + jobs[k].remaining
  {
    hide RunningBytes, Admitted, StillFetching;
    RunningGrows(jobs, i, i + 1);
    if i + 1 < k { RunningGrows(jobs, i + 1, k); }
    RunningGrows(jobs, k, k + 1);
    if k + 1 < |jobs| { RunningGrows(jobs, k + 1, |jobs|); }
    assert jobs[..|jobs|] == jobs;
  }

  // Exactly: counting the jobs the pass skips, nothing is ever overcommitted if and only if none of them
  // still fetches bytes behind a job the pass may admit.
  lemma RunningFitsExactly(jobs: seq<LocalJob>, cfg: Config)
    ensures NoLateFetching(jobs, cfg)
       <==> forall foreign: nat, safe: nat, nas: nat -> bool :: RunningFits(jobs, foreign, safe, cfg, nas)
  {
    if NoLateFetching(jobs, cfg) {
      forall foreign: nat, safe: nat, nas: nat -> bool
        ensures RunningFits(jobs, foreign, safe, cfg, nas)
      {
        RunningFitsSoFar(jobs, |jobs|, foreign, safe, cfg, nas);
        var done := Pass(jobs, |jobs|, foreign, safe, cfg, nas);
        assert done[..|jobs|] == done;
      }
    } else {
      var i, k :| 0 <= i < k < |jobs| && Admissible(jobs[i], cfg) && StillFetching(jobs[k]);
      var first := FirstAdmissible(jobs, cfg, i);
      var safe := LateFetchingOvercommits(jobs, cfg, first, k);
    }
  }

  lemma {:induction false} FirstAdmissible(jobs: seq<LocalJob>, cfg: Config, i: nat) returns (first: nat)
    requires i < |jobs| && Admissible(jobs[i], cfg)
    ensures first <= i && Admissible(jobs[first], cfg) && forall n :: 0 <= n < first ==> !Admissible(jobs[n], cfg)
  {
    first := 0;
    while !Admissible(jobs[first], cfg)
      invariant first <= i && forall n :: 0 <= n < first ==> !Admissible(jobs[n], cfg)
      decreases i - first
    {
      first := first + 1;
    }
  }

  // ---------- queueing keeps creation order ----------

  lemma {:induction false} ReservedGrows(jobs: seq<LocalJob>, i: nat, j: nat)
    requires i < j <= |jobs| && Counted(jobs[i])
    ensures Reserved(jobs[..j]) >= Reserved(jobs[..i]) + jobs[i].remaining
  {
    assert jobs[..j][..j - 1] == jobs[..j - 1];
    if i < j - 1 { ReservedGrows(jobs, i, j - 1); }
  }

  // A job that stays local whatever happens.
  predicate StaysLocal(j: LocalJob, cfg: Config) {
    !j.onNas && (j.state == Downloading || j.state == WaitingForSpace)
    && (j.size.Some? ==> j.size.value <= cfg.localMax)
  }

  // Whatever the policy: when a job is admitted, every older one that stays local or may wait is admitted too,
  // or has been handed to its NAS.
  lemma NoneIsOvertaken(jobs: seq<LocalJob>, foreign: nat, safe: nat, cfg: Config, nas: nat -> bool, i: nat, j: nat)
    requires i < j < |jobs| && jobs[i].remaining > 0 && StaysLocal(jobs[i], cfg)
    ensures var done := Pass(jobs, |jobs|, foreign, safe, cfg, nas);
            Admitted(done[j]) ==> Admitted(done[i]) || done[i].onNas || done[i].state == WaitingForNas
  {
    hide Pass;
    var done := Pass(jobs, |jobs|, foreign, safe, cfg, nas);
    Decided(jobs, i, foreign, safe, cfg, nas);
    Decided(jobs, j, foreign, safe, cfg, nas);
    AdmittedFits(jobs[j], foreign + Reserved(done[..j]), safe, cfg, nas(j));
    if Counted(done[i]) { ReservedGrows(done, i, j); }
  }

  // With the queue policy, a job within the local limit is never left waiting while one created after it is
  // admitted, whatever the other jobs are: the admitted jobs are a prefix of those.
  lemma AdmittedArePrefix(jobs: seq<LocalJob>, foreign: nat, safe: nat, cfg: Config, nas: nat -> bool, i: nat, j: nat)
    requires cfg.overflow == Queue && i < j < |jobs| && jobs[i].remaining > 0 && StaysLocal(jobs[i], cfg)
    ensures var done := Pass(jobs, |jobs|, foreign, safe, cfg, nas); Admitted(done[j]) ==> Admitted(done[i])
  {
    hide Pass;
    NoneIsOvertaken(jobs, foreign, safe, cfg, nas, i, j);
    Decided(jobs, i, foreign, safe, cfg, nas);
  }

  // Exactly, under either policy: a job within the local limit is admitted when it fits with what is reserved
  // for the jobs before it.
  lemma AdmittedExactly(jobs: seq<LocalJob>, foreign: nat, safe: nat, cfg: Config, nas: nat -> bool, i: nat)
    requires i < |jobs| && jobs[i].remaining > 0 && StaysLocal(jobs[i], cfg)
    ensures var done := Pass(jobs, |jobs|, foreign, safe, cfg, nas);
            Admitted(done[i]) <==> foreign + Reserved(done[..i]) + jobs[i].remaining <= safe
  {
    hide Pass;
    Decided(jobs, i, foreign, safe, cfg, nas);
  }

  // A job whose reservation no pass under the queue policy changes.
  predicate Settled(j: LocalJob, cfg: Config) { j.onNas || j.state == ScanSide || StaysLocal(j, cfg) }

  // Under the queue policy the reservations are those before the pass, if every older job stays local, is on the
  // scan side or is on its NAS already.
  lemma {:induction false} SameReserved(jobs: seq<LocalJob>, n: nat, foreign: nat, safe: nat, cfg: Config,
      nas: nat -> bool)
    requires cfg.overflow == Queue && n <= |jobs|
    requires forall k :: 0 <= k < n ==> Settled(jobs[k], cfg)
    ensures Reserved(Pass(jobs, |jobs|, foreign, safe, cfg, nas)[..n]) == Reserved(jobs[..n])
  {
    hide Pass;
    if n > 0 {
      var done := Pass(jobs, |jobs|, foreign, safe, cfg, nas);
      SameReserved(jobs, n - 1, foreign, safe, cfg, nas);
      Decided(jobs, n - 1, foreign, safe, cfg, nas);
      assert Settled(jobs[n - 1], cfg);
      assert done[..n][..n - 1] == done[..n - 1] && jobs[..n][..n - 1] == jobs[..n - 1];
    }
  }

  // So then a job is admitted exactly when it fits with the bytes of all older jobs that are counted.
  lemma AdmittedByAge(jobs: seq<LocalJob>, foreign: nat, safe: nat, cfg: Config, nas: nat -> bool, i: nat)
    requires cfg.overflow == Queue && i < |jobs| && jobs[i].remaining > 0 && StaysLocal(jobs[i], cfg)
    requires forall k :: 0 <= k < i ==> Settled(jobs[k], cfg)
    ensures var done := Pass(jobs, |jobs|, foreign, safe, cfg, nas);
            Admitted(done[i]) <==> foreign + Reserved(jobs[..i]) + jobs[i].remaining <= safe
  {
    hide Pass;
    AdmittedExactly(jobs, foreign, safe, cfg, nas, i);
    SameReserved(jobs, i, foreign, safe, cfg, nas);
  }

  // ---------- downloading ----------

  lemma {:induction false} DownloadShrinks(jobs: seq<LocalJob>, i: nat, k: nat)
    requires i < |jobs| && Admitted(jobs[i]) && k <= jobs[i].remaining
    ensures AdmittedBytes(jobs[i := jobs[i].(remaining := jobs[i].remaining - k)]) == AdmittedBytes(jobs) - k
  {
    var after := jobs[i := jobs[i].(remaining := jobs[i].remaining - k)];
    if i == |jobs| - 1 {
      assert after[..i] == jobs[..i];
    } else {
      DownloadShrinks(jobs[..|jobs| - 1], i, k);
      assert after[..|jobs| - 1] == jobs[..|jobs| - 1][i := after[i]];
    }
  }

  // Fetching k bytes takes them from the free space and from what remains, so the bound is kept.
  lemma DownloadKeepsBound(jobs: seq<LocalJob>, i: nat, k: nat, foreign: nat, free: int, cfg: Config)
    requires i < |jobs| && Admitted(jobs[i]) && k <= jobs[i].remaining
    requires foreign + AdmittedBytes(jobs) <= AtLeastZero(free - cfg.buffer)
    ensures var after := jobs[i := jobs[i].(remaining := jobs[i].remaining - k)];
            foreign + AdmittedBytes(after) <= AtLeastZero(free - k - cfg.buffer)
  {
    DownloadShrinks(jobs, i, k);
    AdmittedSome(jobs, i);
  }
}
