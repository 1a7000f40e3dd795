// The scan of one large file from its plan to its verdict.
module LargeMedia {
  import opened ByteStrings
  import opened Options
  import opened MediaWindows
  import opened RangeScan
  import opened Collector
  import ScanReply

  // How the collecting thread sees the end of one range.
  function Seen(r: Result<Outcome, Stop>): Ending {
    if r.Ok? then if r.value.infected then Ending.Infected else Ending.Clean
    else if r.error == Stop.Cancelled then Ending.Dropped
    else Ending.Failed
  }

  // A run of the file lies in a window that ClamD received as it is and answered OK.
  ghost predicate IsInspected(file: Bytes, exchanges: set<Sent>, i: nat, n: nat) {
    exists s <- exchanges :: Matches(s, s.window, file) && Contains(s.window, i, n)
  }

  lemma {:induction false} GatheredFrom(completions: seq<(nat, Ending)>)
    ensures var g := GatherAll(NOTHING, completions);
            (forall k <- g.outcomes ::
               exists n :: 0 <= n < |completions| && completions[n].0 == k
                           && (completions[n].1 == Ending.Clean || completions[n].1 == Ending.Infected))
            && (g.infection.None? ==> forall n :: 0 <= n < |completions| ==> completions[n].1 != Ending.Infected)
  {
    if completions != [] {
      var front, last := completions[..|completions| - 1], completions[|completions| - 1];
      GatheredFrom(front);
      var g := GatherAll(NOTHING, completions);
      forall k <- g.outcomes
        ensures exists n :: 0 <= n < |completions| && completions[n].0 == k
                            && (completions[n].1 == Ending.Clean || completions[n].1 == Ending.Infected)
      {
        if k in GatherAll(NOTHING, front).outcomes {
          var n :| 0 <= n < |front| && front[n].0 == k && (front[n].1 == Ending.Clean || front[n].1 == Ending.Infected);
          assert completions[n] == front[n];
        } else {
          assert completions[|completions| - 1] == last;
        }
      }
      forall n | 0 <= n < |completions| && g.infection.None?
        ensures completions[n].1 != Ending.Infected
      {
        if n < |front| { assert completions[n] == front[n]; }
      }
    }
  }

  lemma {:induction false} InfectionHasCause(completions: seq<(nat, Ending)>)
    ensures GatherAll(NOTHING, completions).infection.Some? ==>
              exists n :: 0 <= n < |completions| && completions[n].1 == Ending.Infected
  {
    if completions != [] {
      var front, last := completions[..|completions| - 1], completions[|completions| - 1];
      InfectionHasCause(front);
      if last.1 != Ending.Infected && GatherAll(NOTHING, completions).infection.Some? {
        var n :| 0 <= n < |front| && front[n].1 == Ending.Infected;
        assert completions[n] == front[n];
      }
    }
  }

  lemma {:induction false} AllClean(completions: seq<(nat, Ending)>, k: nat)
    requires forall n :: 0 <= n < |completions| ==> completions[n].1 == Ending.Clean
    ensures var g := GatherAll(NOTHING, completions);
            g.infection.None? && g.firstError.None? && (k in g.outcomes <==> (k, Ending.Clean) in completions)
  {
    if completions != [] {
      var front, last := completions[..|completions| - 1], completions[|completions| - 1];
      AllClean(front, k);
      assert completions == front + [last];
    }
  }

  // When every range ended clean, so did the file.
  lemma AllCleanIsClean(completions: seq<(nat, Ending)>, ranges: nat)
    requires forall n :: 0 <= n < |completions| ==> completions[n].1 == Ending.Clean && completions[n].0 < ranges
    requires forall k: nat :: k < ranges ==> (k, Ending.Clean) in completions
    ensures Judge(GatherAll(NOTHING, completions), ranges) == CleanFile
  {
    hide GatherAll;
    var g := GatherAll(NOTHING, completions);
    forall k: nat
      ensures g.infection.None? && g.firstError.None? && (k in g.outcomes <==> (k, Ending.Clean) in completions)
    {
      AllClean(completions, k);
    }
    AllClean(completions, 0);
    CountBelow(g.outcomes, ranges);
  }

  // A clean verdict has a clean completion for every range.
  lemma CleanHasAll(completions: seq<(nat, Ending)>, ranges: nat, k: nat) returns (n: nat)
    requires Judge(GatherAll(NOTHING, completions), ranges) == CleanFile && k < ranges
    requires forall n :: 0 <= n < |completions| ==> completions[n].0 < ranges
    ensures n < |completions| && completions[n] == (k, Ending.Clean)
  {
    hide GatherAll;
    GatheredFrom(completions);
    var g := GatherAll(NOTHING, completions);
    CountBelow(g.outcomes, ranges);
    assert |g.outcomes| == ranges;
    assert k in g.outcomes;
    n :| 0 <= n < |completions| && completions[n].0 == k
         && (completions[n].1 == Ending.Clean || completions[n].1 == Ending.Infected);
  }

  // Every range ends at some time.
  ghost predicate Complete(order: nat -> seq<nat>) { forall n: nat, k: nat :: k < n ==> k in order(n) }

  // `order` lists so many ranges as they end; what ClamD answers, how reads are cut, when siblings stop each other
  // and whether the file changes is up to the environment.  A clean verdict means that every byte, and every
  // run of at most `overlap + 1` bytes, was inspected; an infected one that ClamD named a threat in a part of the
  // file; and when all goes well the verdict is clean.
  method ScanLargeMedia(file: Bytes, window: int, overlap: int, minimum: int, replies: (nat, Window) -> Reply,
                        served: nat -> (nat -> nat), siblingStopped: nat -> bool, sameFile: nat -> bool,
                        order: nat -> seq<nat>)
    returns (verdict: Result<Verdict, BadWindow>, exchanges: set<Sent>)
    ensures verdict.Err? <==> window <= 0 || overlap < 0 || overlap >= window
    ensures verdict == Ok(CleanFile) ==>
              forall i: nat, n: nat :: 0 < n <= overlap + 1 && i + n <= |file| ==> IsInspected(file, exchanges, i, n)
    ensures verdict == Ok(InfectedFile) ==> Detected(file, exchanges)
    ensures verdict.Ok? && Calm(replies, served, siblingStopped, sameFile, minimum, overlap) && Complete(order) ==>
              verdict == Ok(CleanFile)
  {
    hide Resolved, Matches, Detected, Calm, IsPlan, Covers, GatherAll;
    var plan := WindowRanges(|file|, window, overlap);
    if plan.Err? { return Err(plan.error), {}; }
    var ranges := plan.value;
    PlanFits(ranges, |file|, window, overlap);
    var scanner := new RangeScanner(file, minimum, overlap, replies, served, siblingStopped, sameFile);
    var completions: seq<(nat, Ending)> := [];
    ghost var lines: map<nat, seq<Line>> := map[];
    ghost var calm := Calm(replies, served, siblingStopped, sameFile, minimum, overlap);
    var ends := order(|ranges|);
    for n := 0 to |ends|
      invariant fresh(scanner) && |scanner.asked| == scanner.requests
      invariant forall m :: 0 <= m < |completions| ==> completions[m].0 < |ranges|
      invariant forall m :: 0 <= m < |completions| && completions[m].1 == Ending.Clean ==>
                  completions[m].0 in lines
                  && Resolved(ranges[completions[m].0], lines[completions[m].0], minimum, overlap, file,
                              scanner.exchanges)
      invariant forall m :: 0 <= m < |completions| && completions[m].1 == Ending.Infected ==>
                  Detected(file, scanner.exchanges)
      invariant calm ==> !scanner.cancellation
      invariant calm ==> forall m :: 0 <= m < |completions| ==> completions[m].1 == Ending.Clean
      invariant calm ==> forall m :: 0 <= m < n && ends[m] < |ranges| ==> (ends[m], Ending.Clean) in completions
    {
      var k := ends[n];
      if k >= |ranges| { continue; }
      ghost var before := scanner.exchanges;
      var r := scanner.ScanRange(ranges[k]);
      ghost var known := lines;
      if r.Ok? && !r.value.infected { lines := lines[k := r.value.lines]; }
      forall m | 0 <= m < |completions| && completions[m].1 == Ending.Clean
        ensures completions[m].0 in lines
        ensures Resolved(ranges[completions[m].0], lines[completions[m].0], minimum, overlap, file, scanner.exchanges)
      {
        var j := completions[m].0;
        ResolvedGrows(ranges[j], known[j], minimum, overlap, file, before, scanner.exchanges);
      }
      if Detected(file, before) { DetectedGrows(file, before, scanner.exchanges); }
      completions := completions + [(k, Seen(r))];
    }
    var collector := new Collector();
    var judged := collector.Run(completions, |ranges|);
    exchanges := scanner.exchanges;
    InfectionHasCause(completions);
    if calm && Complete(order) {
      forall k: nat | k < |ranges|
        ensures (k, Ending.Clean) in completions
      {
        assert k in ends;
      }
      AllCleanIsClean(completions, |ranges|);
    }
    if judged == CleanFile {
      forall i: nat, n: nat | 0 < n <= overlap + 1 && i + n <= |file|
        ensures IsInspected(file, exchanges, i, n)
      {
        forall k | 0 <= k < |ranges|
          ensures k in lines && Resolved(ranges[k], lines[k], minimum, overlap, file, exchanges)
        {
          var m := CleanHasAll(completions, |ranges|, k);
        }
        var all := seq(|ranges|, k requires 0 <= k < |ranges| && k in lines => lines[k]);
        var s := CleanMeansInspected(file, window, minimum, overlap, ranges, all, exchanges, i, n);
      }
    }
    verdict := Ok(judged);
  }

  // All can go well, also with a ClamD that refuses anything above some size, as long as that may be split.
  lemma CalmIsPossible(most: nat, minimum: int, overlap: int)
    returns (replies: (nat, Window) -> Reply, served: nat -> (nat -> nat), siblingStopped: nat -> bool,
             sameFile: nat -> bool, order: nat -> seq<nat>)
    requires 0 <= overlap < minimum && most + 1 >= 2 * minimum - overlap
    ensures Bounded(replies, most) && Calm(replies, served, siblingStopped, sameFile, minimum, overlap)
    ensures Complete(order)
  {
    hide ScanReply.Reports, Calm;
    replies := (n: nat, w: Window) => Text(if w.length <= most then "stream: OK" else ScanReply.STREAM_REFUSAL);
    served, siblingStopped, sameFile := _ => _ => 1, _ => false, _ => true;
    order := (n: nat) => seq(n, (i: nat) => i);
    BoundedIsCalm(replies, served, siblingStopped, sameFile, most, minimum, overlap);
    forall n: nat, k: nat | k < n
      ensures k in order(n)
    {
      assert order(n)[k] == k;
    }
  }

  lemma PlanFits(ranges: seq<Window>, total: nat, window: nat, overlap: nat)
    requires IsPlan(ranges, total, window, overlap)
    ensures forall k :: 0 <= k < |ranges| ==> ranges[k].offset + ranges[k].length <= total
  {}
}
