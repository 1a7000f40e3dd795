// The parallel scan of one large file: ranges end in any order and may stop each other.
module Collector {
  import opened Options

  // How a range ended.  `Dropped` is a range that saw the shared cancellation flag.
  datatype Ending = Clean | Infected | Failed | Dropped

  datatype Status = Running | Returning(ending: Ending) | Collected(ending: Ending)

  // What the collecting thread has gathered.
  datatype Gathered = Gathered(outcomes: set<nat>, infection: Option<nat>, firstError: Option<nat>)

  datatype Verdict = CleanFile | InfectedFile | Error | Incomplete

  const NOTHING := Gathered({}, None, None)

  // What one completed range adds.
  function Gather(g: Gathered, k: nat, ending: Ending): Gathered {
    match ending
    case Dropped => g
    case Failed => if g.firstError.None? then g.(firstError := Some(k)) else g
    case Clean => g.(outcomes := g.outcomes + {k})
    case Infected =>
      Gathered(g.outcomes + {k}, if g.infection.None? then Some(k) else g.infection, g.firstError)
  }

  // Whether collecting it stops the others.
  predicate Stops(ending: Ending) { ending == Infected || ending == Failed }

  function GatherAll(g: Gathered, completions: seq<(nat, Ending)>): Gathered {
    if completions == [] then g
    else
      var last := completions[|completions| - 1];
      Gather(GatherAll(g, completions[..|completions| - 1]), last.0, last.1)
  }

  function Judge(g: Gathered, ranges: nat): Verdict {
    if g.infection.Some? then InfectedFile
    else if g.firstError.Some? then Error
    else if |g.outcomes| != ranges then Incomplete
    else CleanFile
  }

  class Collector {
    var outcomes: set<nat>
    var infection: Option<nat>
    var firstError: Option<nat>
    var cancellation: bool

    constructor ()
      ensures Contents() == NOTHING && !cancellation
    {
      outcomes, infection, firstError, cancellation := {}, None, None, false;
    }

    function Contents(): Gathered
      reads this
    {
      Gathered(outcomes, infection, firstError)
    }

    // The loop over completed ranges, in whatever order they complete, and the result of the file.
    method Run(completions: seq<(nat, Ending)>, ranges: nat) returns (verdict: Verdict)
      requires Contents() == NOTHING
      modifies this
      ensures Contents() == GatherAll(NOTHING, completions)
      ensures cancellation == (old(cancellation) || exists n :: 0 <= n < |completions| && Stops(completions[n].1))
      ensures verdict == Judge(GatherAll(NOTHING, completions), ranges)
    {
      assert completions[..0] == [];
      for n := 0 to |completions|
        invariant Contents() == GatherAll(NOTHING, completions[..n])
        invariant cancellation == (old(cancellation) || exists m :: 0 <= m < n && Stops(completions[m].1))
      {
        var (k, ending) := completions[n];
        assert completions[..n + 1][..n] == completions[..n];
        if ending == Dropped { continue; }
        if ending == Failed {
          if firstError.None? { firstError := Some(k); }
          cancellation := true;
          assert Stops(completions[n].1);
          continue;
        }
        outcomes := outcomes + {k};
        if ending == Infected && infection.None? {
          infection := Some(k);
          cancellation := true;
        }
        InfectionWasGathered(completions[..n]);
      }
      assert completions[..|completions|] == completions;
      if infection.Some? { return InfectedFile; }
      if firstError.Some? { return Error; }
      if |outcomes| != ranges { return Incomplete; }
      return CleanFile;
    }
  }

  lemma {:induction false} InfectionWasGathered(completions: seq<(nat, Ending)>)
    ensures GatherAll(NOTHING, completions).infection.Some? ==>
              exists n :: 0 <= n < |completions| && Stops(completions[n].1)
  {
    if completions != [] {
      var front := completions[..|completions| - 1];
      InfectionWasGathered(front);
      if GatherAll(NOTHING, front).infection.Some? {
        var n :| 0 <= n < |front| && Stops(front[n].1);
        assert Stops(completions[n].1);
      } else {
        assert GatherAll(NOTHING, completions).infection.Some? ==> Stops(completions[|completions| - 1].1);
      }
    }
  }

  // ---------- every schedule ----------

  // `own[k]` is how range k ends when nobody stops it.
  datatype State = State(status: seq<Status>, cancelled: bool, gathered: Gathered)

  datatype Step = Decide(k: nat, ending: Ending) | Collect(k: nat)

  predicate Initial(s: State, own: seq<Ending>) {
    |s.status| == |own| && (forall k :: 0 <= k < |own| ==> s.status[k] == Running)
    && !s.cancelled && s.gathered == NOTHING
  }

  // A range ends by itself; once the flag is set it may instead be dropped or interrupted.
  predicate Enabled(s: State, own: seq<Ending>, step: Step) {
    step.k < |s.status| == |own| &&
    match step
    case Decide(k, ending) =>
      s.status[k] == Running && (ending == own[k] || (s.cancelled && (ending == Dropped || ending == Failed)))
    case Collect(k) => s.status[k].Returning?
  }

  // A range that finds malware sets the flag itself, before its result is collected.
  function Apply(s: State, step: Step): State
    requires step.k < |s.status| && (step.Collect? ==> s.status[step.k].Returning?)
  {
    match step
    case Decide(k, ending) =>
      s.(status := s.status[k := Returning(ending)], cancelled := s.cancelled || ending == Infected)
    case Collect(k) =>
      var ending := s.status[k].ending;
      State(s.status[k := Collected(ending)], s.cancelled || Stops(ending), Gather(s.gathered, k, ending))
  }

  ghost predicate IsRun(states: seq<State>, steps: seq<Step>, own: seq<Ending>) {
    |states| == |steps| + 1 && Initial(states[0], own)
    && forall i :: 0 <= i < |steps| ==>
         Enabled(states[i], own, steps[i]) && states[i + 1] == Apply(states[i], steps[i])
  }

  // The completions of a run, in the order the collecting thread sees them.
  ghost function Completions(states: seq<State>, steps: seq<Step>, own: seq<Ending>, n: nat): seq<(nat, Ending)>
    requires IsRun(states, steps, own) && n <= |steps|
  {
    if n == 0 then []
    else
      var before := Completions(states, steps, own, n - 1);
      assert Enabled(states[n - 1], own, steps[n - 1]);
      match steps[n - 1]
      case Decide(_, _) => before
      case Collect(k) => before + [(k, states[n - 1].status[k].ending)]
  }

  // So the collecting loop, fed with these completions, holds what the run has gathered.
  lemma {:induction false} LoopFollowsRun(states: seq<State>, steps: seq<Step>, own: seq<Ending>, n: nat)
    requires IsRun(states, steps, own) && n <= |steps|
    ensures states[n].gathered == GatherAll(NOTHING, Completions(states, steps, own, n))
  {
    if n > 0 {
      LoopFollowsRun(states, steps, own, n - 1);
      assert Enabled(states[n - 1], own, steps[n - 1]) && states[n] == Apply(states[n - 1], steps[n - 1]);
      var before, all := Completions(states, steps, own, n - 1), Completions(states, steps, own, n);
      if steps[n - 1].Collect? { assert all[..|all| - 1] == before; }
    }
  }

  predicate Ended(s: Status, ending: Ending) { s == Returning(ending) || s == Collected(ending) }

  // The range that made the others stop.
  predicate Cause(s: State, own: seq<Ending>, k: nat) {
    k < |s.status| == |own| && Stops(own[k]) && Ended(s.status[k], own[k])
  }

  ghost predicate Inv(s: State, own: seq<Ending>) {
    |s.status| == |own|
    && (s.cancelled ==> exists k: nat :: Cause(s, own, k))
    && (forall k :: 0 <= k < |own| && !s.status[k].Running? && s.status[k].ending != own[k] ==> s.cancelled)
    && (forall k :: 0 <= k < |own| && s.status[k] == Collected(Failed) ==> s.gathered.firstError.Some?)
    && (forall k :: 0 <= k < |own| && s.status[k] == Collected(Infected) ==> s.gathered.infection.Some?)
    && (forall k: nat :: k in s.gathered.outcomes <==>
          k < |own| && (s.status[k] == Collected(Clean) || s.status[k] == Collected(Infected)))
    && (s.gathered.infection.Some? ==> exists k :: 0 <= k < |own| && s.status[k] == Collected(Infected))
    && (s.gathered.firstError.Some? ==> s.cancelled)
    && (forall k :: 0 <= k < |own| && Ended(s.status[k], Infected) ==> own[k] == Infected)
  }

  // How the ranges end when nobody stops them: nothing is dropped without the flag.
  predicate Plain(own: seq<Ending>) { forall k :: 0 <= k < |own| ==> own[k] != Dropped }

  lemma StepKeepsInv(s: State, own: seq<Ending>, step: Step)
    requires Inv(s, own) && Enabled(s, own, step)
    ensures Inv(Apply(s, step), own)
  {
    var t := Apply(s, step);
    if s.cancelled {
      var k: nat :| Cause(s, own, k);
      assert Cause(t, own, k);
    } else if t.cancelled {
      assert Cause(t, own, step.k);
    }
    if s.gathered.infection.Some? {
      var k :| 0 <= k < |own| && s.status[k] == Collected(Infected);
      assert t.status[k] == Collected(Infected);
    }
    assert t.gathered.infection.Some? && s.gathered.infection.None? ==> t.status[step.k] == Collected(Infected);
  }

  lemma {:induction false} RunsKeepInv(states: seq<State>, steps: seq<Step>, own: seq<Ending>, i: nat)
    requires IsRun(states, steps, own) && i < |states|
    ensures Inv(states[i], own)
  {
    if i > 0 {
      RunsKeepInv(states, steps, own, i - 1);
      StepKeepsInv(states[i - 1], own, steps[i - 1]);
    }
  }

  predicate AllCollected(s: State) { forall k :: 0 <= k < |s.status| ==> s.status[k].Collected? }

  lemma {:induction false} CountBelow(outcomes: set<nat>, n: nat)
    requires forall k: nat :: k in outcomes ==> k < n
    ensures |outcomes| == n <==> forall k: nat :: k < n ==> k in outcomes
    ensures |outcomes| <= n
  {
    if n > 0 {
      var rest := outcomes - {n - 1};
      CountBelow(rest, n - 1);
      if n - 1 in outcomes {
        assert |outcomes| == |rest| + 1;
        assert forall k: nat :: k < n - 1 ==> (k in rest <==> k in outcomes);
      } else {
        assert rest == outcomes;
      }
    }
  }

  // Whatever the order of completions and cancellations: the file is clean exactly when every range is,
  // a range is dropped only when the result is an infection or an error that some range really had,
  // and the scan never ends with ranges missing.
  lemma VerdictIsScheduleIndependent(states: seq<State>, steps: seq<Step>, own: seq<Ending>)
    requires IsRun(states, steps, own) && Plain(own)
    requires AllCollected(states[|steps|])
    ensures var s := states[|steps|];
            var verdict := Judge(s.gathered, |own|);
            |s.status| == |own|
            && (verdict == CleanFile <==> forall k :: 0 <= k < |own| ==> own[k] == Clean)
            && verdict != Incomplete
            && (verdict == InfectedFile ==> exists k :: 0 <= k < |own| && own[k] == Infected)
            && (verdict == Error ==> exists k :: 0 <= k < |own| && own[k] == Failed)
            && (forall k :: 0 <= k < |own| && s.status[k] == Collected(Dropped)
                            ==> verdict == InfectedFile || verdict == Error)
  {
    var s := states[|steps|];
    RunsKeepInv(states, steps, own, |steps|);
    CountBelow(s.gathered.outcomes, |own|);
    if s.cancelled {
      var k: nat :| Cause(s, own, k);
      assert s.status[k] == Collected(own[k]);
    } else {
      assert forall k :: 0 <= k < |own| ==> s.status[k] == Collected(own[k]);
      assert s.gathered.firstError.None?;
      forall k | 0 <= k < |own|
        ensures own[k] == Clean || own[k] == Infected
      {
        assert s.status[k] == Collected(own[k]);
      }
    }
  }
}
