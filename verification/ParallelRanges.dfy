// The ranges of a large file scanned at the same time: their requests interleave in any way, and they share one
// cancellation flag.
module ParallelRanges {
  import opened ByteStrings
  import opened Options
  import opened MediaWindows
  import opened RangeScan
  import ScanReply
  import C = Collector

  datatype Config = Config(file: Bytes, window: nat, overlap: nat, minimum: int)

  // One range: the windows still to be scanned, first first, and whether a request is under way.
  datatype Thread = Thread(
    todo: seq<Window>, lines: seq<Line>, waiting: bool, ending: Option<C.Ending>, collected: bool)

  datatype State = State(threads: seq<Thread>, cancelled: bool, exchanges: set<Sent>, gathered: C.Gathered)

  // A range looks at the flag and sends a request; its answer comes; its end is collected.
  datatype Step =
    | Ask(k: nat)
    | Answer(k: nat, wire: Option<Bytes>, reply: Reply, sameFile: bool)
    | Collect(k: nat)

  predicate Fits(w: Window, file: Bytes) { w.offset + w.length <= |file| }

  // What is sent is what ClamD receives for the window; sending may break off.
  predicate Enabled(cfg: Config, s: State, step: Step) {
    step.k < |s.threads| &&
    var t := s.threads[step.k];
    match step
    case Ask(_) => t.ending.None? && !t.waiting && t.todo != []
    case Answer(_, wire, _, _) =>
      t.ending.None? && t.waiting && t.todo != [] && Fits(t.todo[0], cfg.file)
      && (wire.Some? ==> Delivered(Sent(t.todo[0], wire.value, ""), t.todo[0], cfg.file))
    case Collect(_) => t.ending.Some? && !t.collected
  }

  function Ended(t: Thread, ending: C.Ending): Thread { t.(waiting := false, ending := Some(ending)) }

  // What a range makes of the text of a reply.
  function AfterText(cfg: Config, t: Thread, response: string): Thread
    requires t.todo != []
  {
    var w, rest := t.todo[0], t.todo[1..];
    match ScanReply.Parse(response)
    case Threat(_) => Ended(t.(lines := t.lines + [Line(w, true)]), C.Infected)
    case NoThreat =>
      var done := t.(lines := t.lines + [Line(w, true)], todo := rest, waiting := false);
      if rest == [] then Ended(done, C.Clean) else done
    case Limit(name) =>
      var halves := Split(w, cfg.minimum, cfg.overlap);
      if ScanReply.Divisible(name) && halves.Ok? && halves.value.Some? then
        t.(lines := t.lines + [Line(w, false)], todo := [halves.value.value.0, halves.value.value.1] + rest,
           waiting := false)
      else Ended(t, C.Failed)
    case _ => Ended(t, C.Failed)
  }

  function AfterAnswer(cfg: Config, t: Thread, wire: Option<Bytes>, reply: Reply, sameFile: bool, cancelled: bool)
    : Thread
    requires t.todo != []
  {
    if wire.None? then Ended(t, C.Failed)
    else match reply
      case Interrupted(stopAsked) => Ended(t, if cancelled && !stopAsked then C.Dropped else C.Failed)
      case Unreadable => Ended(t, C.Failed)
      case Text(response) => if !sameFile then Ended(t, C.Failed) else AfterText(cfg, t, response)
  }

  function Apply(cfg: Config, s: State, step: Step): State
    requires Enabled(cfg, s, step)
  {
    var k, t := step.k, s.threads[step.k];
    match step
    case Ask(_) => s.(threads := s.threads[k := if s.cancelled then Ended(t, C.Dropped) else t.(waiting := true)])
    case Answer(_, wire, reply, sameFile) =>
      var t' := AfterAnswer(cfg, t, wire, reply, sameFile, s.cancelled);
      s.(threads := s.threads[k := t'], cancelled := s.cancelled || t'.ending == Some(C.Infected),
         exchanges := if wire.Some? && reply.Text? then s.exchanges + {Sent(t.todo[0], wire.value, reply.response)}
                      else s.exchanges)
    case Collect(_) =>
      s.(threads := s.threads[k := t.(collected := true)], cancelled := s.cancelled || C.Stops(t.ending.value),
         gathered := C.Gather(s.gathered, k, t.ending.value))
  }

  predicate Initial(s: State, ranges: seq<Window>) {
    |s.threads| == |ranges|
    && (forall k :: 0 <= k < |ranges| ==> s.threads[k] == Thread([ranges[k]], [], false, None, false))
    && !s.cancelled && s.exchanges == {} && s.gathered == C.NOTHING
  }

  ghost predicate IsRun(cfg: Config, ranges: seq<Window>, xs: seq<State>, steps: seq<Step>) {
    |xs| == |steps| + 1 && Initial(xs[0], ranges)
    && forall i :: 0 <= i < |steps| ==> Enabled(cfg, xs[i], steps[i]) && xs[i + 1] == Apply(cfg, xs[i], steps[i])
  }

  // ---------- one range ----------

  // The windows answered and those to do cover the range, and cutting cost nothing but overlaps.
  ghost predicate Partly(cfg: Config, range: Window, lines: seq<Line>, todo: seq<Window>, exchanges: set<Sent>) {
    var ws := Leaves(lines) + todo;
    Covers(ws, range, cfg.overlap) && AllAnswered(Leaves(lines), cfg.file, exchanges)
    && Excess(ws, cfg.overlap) == range.length - cfg.overlap && |lines| == 2 * |Leaves(lines)| + |todo| - 1
    && (ws == [range] || (cfg.overlap < cfg.minimum && forall k :: 0 <= k < |ws| ==> ws[k].length >= cfg.minimum))
  }

  ghost predicate ThreadOk(cfg: Config, range: Window, t: Thread, cancelled: bool, exchanges: set<Sent>) {
    (forall w <- t.todo :: Fits(w, cfg.file))
    && (t.ending.None? ==> t.todo != [] && !t.collected) && (t.ending == Some(C.Clean) ==> t.todo == [])
    && (t.ending.None? || t.ending == Some(C.Clean) ==> Partly(cfg, range, t.lines, t.todo, exchanges))
    && (t.ending == Some(C.Infected) ==> cancelled && Detected(cfg.file, exchanges))
    && (t.ending == Some(C.Dropped) ==> cancelled)
    && (t.collected ==> t.ending.Some? && (t.ending.value == C.Failed ==> cancelled))
  }

  lemma StartIsPartly(cfg: Config, range: Window)
    ensures Partly(cfg, range, [], [range], {})
  {
    assert [] + [range] == [range] && [range][..0] == [];
    forall i, n | 0 < n <= cfg.overlap + 1 && Contains(range, i, n)
      ensures Inside([range], i, n)
    {
      assert Contains([range][0], i, n);
    }
  }

  lemma PartlyGrows(cfg: Config, range: Window, lines: seq<Line>, todo: seq<Window>, before: set<Sent>,
                    after: set<Sent>)
    requires Partly(cfg, range, lines, todo, before) && before <= after
    ensures Partly(cfg, range, lines, todo, after)
  {
    hide Covers, RangeScan.Answered;
    AnsweredGrows(Leaves(lines), cfg.file, before, after);
  }

  lemma LeavesOfOneMore(lines: seq<Line>, w: Window, resolved: bool)
    ensures Leaves(lines + [Line(w, resolved)]) == Leaves(lines) + if resolved then [w] else []
  {
    assert (lines + [Line(w, resolved)])[..|lines|] == lines;
  }

  lemma AnsweredIsPartly(cfg: Config, range: Window, lines: seq<Line>, todo: seq<Window>, exchanges: set<Sent>, s: Sent)
    requires todo != [] && Partly(cfg, range, lines, todo, exchanges)
    requires s in exchanges && Matches(s, todo[0], cfg.file)
    ensures Partly(cfg, range, lines + [Line(todo[0], true)], todo[1..], exchanges)
  {
    hide Covers, Excess, Matches, Leaves;
    var w, rest := todo[0], todo[1..];
    LeavesOfOneMore(lines, w, true);
    assert Leaves(lines) + todo == (Leaves(lines) + [w]) + rest;
    OneAnswered(w, cfg.file, exchanges, s);
    hide RangeScan.Answered;
  }

  lemma SplitIsPartly(cfg: Config, range: Window, lines: seq<Line>, todo: seq<Window>, exchanges: set<Sent>,
                      left: Window, right: Window)
    requires todo != [] && Partly(cfg, range, lines, todo, exchanges)
    requires Split(todo[0], cfg.minimum, cfg.overlap) == Ok(Some((left, right)))
    ensures Partly(cfg, range, lines + [Line(todo[0], false)], [left, right] + todo[1..], exchanges)
  {
    hide Covers, Excess, Leaves, RangeScan.Answered, Split;
    var w, rest, done := todo[0], todo[1..], Leaves(lines);
    LeavesOfOneMore(lines, w, false);
    assert done + todo == done + [w] + rest;
    HalvesCover(cfg, range, done, w, rest, left, right);
    HalvesExcess(cfg, done, w, rest, left, right);
    assert done + [] == done && done + ([left, right] + rest) == done + [left, right] + rest;
    var ws, ws' := done + todo, done + [left, right] + rest;
    SplitBounds(cfg, w, left, right);
    forall k | 0 <= k < |ws'|
      ensures ws'[k].length >= cfg.minimum
    {
      if k < |done| {
        assert ws'[k] == ws[k] && |ws| > 1;
      } else if k >= |done| + 2 {
        assert ws'[k] == ws[k - 1] && |ws| > 1;
      }
    }
  }

  lemma SplitBounds(cfg: Config, w: Window, left: Window, right: Window)
    requires Split(w, cfg.minimum, cfg.overlap) == Ok(Some((left, right)))
    ensures cfg.overlap < cfg.minimum <= left.length && cfg.minimum <= right.length
    ensures left.length + right.length == w.length + cfg.overlap
    ensures left.offset == w.offset && right.offset + right.length == w.offset + w.length
    ensures left.offset + left.length == right.offset + cfg.overlap
  {}

  lemma HalvesCover(cfg: Config, range: Window, a: seq<Window>, w: Window, b: seq<Window>, left: Window, right: Window)
    requires Covers(a + [w] + b, range, cfg.overlap) && Split(w, cfg.minimum, cfg.overlap) == Ok(Some((left, right)))
    ensures Covers(a + [left, right] + b, range, cfg.overlap)
  {
    hide Split;
    SplitBounds(cfg, w, left, right);
    var ws, ws' := a + [w] + b, a + [left, right] + b;
    forall i, n | 0 < n <= cfg.overlap + 1 && Contains(range, i, n)
      ensures Inside(ws', i, n)
    {
      assert Inside(ws, i, n);
      var k :| 0 <= k < |ws| && Contains(ws[k], i, n);
      if k < |a| {
        assert ws'[k] == ws[k];
      } else if k > |a| {
        assert ws'[k + 1] == ws[k];
      } else {
        assert Contains(left, i, n) || Contains(right, i, n);
        assert ws'[|a|] == left && ws'[|a| + 1] == right;
      }
    }
  }

  lemma HalvesExcess(cfg: Config, a: seq<Window>, w: Window, b: seq<Window>, left: Window, right: Window)
    requires Split(w, cfg.minimum, cfg.overlap) == Ok(Some((left, right)))
    ensures Excess(a + [left, right] + b, cfg.overlap) == Excess(a + [w] + b, cfg.overlap)
  {
    hide Split;
    SplitBounds(cfg, w, left, right);
    ExcessConcat(a + [left, right], b, cfg.overlap);
    ExcessConcat(a, [left, right], cfg.overlap);
    ExcessConcat(a + [w], b, cfg.overlap);
    ExcessConcat(a, [w], cfg.overlap);
    assert [left, right][..1] == [left] && [left][..0] == [] && [w][..0] == [];
  }

  lemma TextKeepsOk(cfg: Config, range: Window, t: Thread, cancelled: bool, before: set<Sent>, s: Sent)
    requires ThreadOk(cfg, range, t, cancelled, before) && t.ending.None? && Delivered(s, t.todo[0], cfg.file)
    ensures var t' := AfterText(cfg, t, s.response);
            ThreadOk(cfg, range, t', cancelled || t'.ending == Some(C.Infected), before + {s})
            && t'.collected == t.collected
  {
    hide Partly, Detected, Split, Delivered, ScanReply.Parse;
    var after := before + {s};
    PartlyGrows(cfg, range, t.lines, t.todo, before, after);
    match ScanReply.Parse(s.response) {
      case Threat(_) => OneThreat(t.todo[0], cfg.file, after, s);
      case NoThreat => AnsweredIsPartly(cfg, range, t.lines, t.todo, after, s);
      case Limit(_) =>
        var halves := Split(t.todo[0], cfg.minimum, cfg.overlap);
        if halves.Ok? && halves.value.Some? {
          SplitIsPartly(cfg, range, t.lines, t.todo, after, halves.value.value.0, halves.value.value.1);
          HalvesFit(cfg, t.todo[0], halves.value.value.0, halves.value.value.1);
        }
      case _ =>
    }
  }

  lemma HalvesFit(cfg: Config, w: Window, left: Window, right: Window)
    requires Fits(w, cfg.file) && Split(w, cfg.minimum, cfg.overlap) == Ok(Some((left, right)))
    ensures Fits(left, cfg.file) && Fits(right, cfg.file)
  {}

  lemma OthersKeepOk(cfg: Config, range: Window, t: Thread, cancelled: bool, before: set<Sent>, more: bool,
                     after: set<Sent>)
    requires ThreadOk(cfg, range, t, cancelled, before) && (cancelled ==> more) && before <= after
    ensures ThreadOk(cfg, range, t, more, after)
  {
    hide Partly, Detected;
    if t.ending.None? || t.ending == Some(C.Clean) { PartlyGrows(cfg, range, t.lines, t.todo, before, after); }
    if t.ending == Some(C.Infected) { DetectedGrows(cfg.file, before, after); }
  }

  // ---------- all ranges ----------

  // Why the others were made to stop.
  predicate Cause(s: State, k: nat) {
    k < |s.threads|
    && (s.threads[k].ending == Some(C.Infected) || (s.threads[k].ending == Some(C.Failed) && s.threads[k].collected))
  }

  predicate Counted(t: Thread) { t.collected && (t.ending == Some(C.Clean) || t.ending == Some(C.Infected)) }

  // What has been gathered is what was collected.
  ghost predicate GatheredAgrees(s: State) {
    (forall k: nat :: k in s.gathered.outcomes <==> k < |s.threads| && Counted(s.threads[k]))
    && (s.gathered.infection.Some? <==>
          exists k :: 0 <= k < |s.threads| && s.threads[k].collected && s.threads[k].ending == Some(C.Infected))
    && (s.gathered.firstError.Some? <==>
          exists k :: 0 <= k < |s.threads| && s.threads[k].collected && s.threads[k].ending == Some(C.Failed))
  }

  ghost predicate Inv(cfg: Config, ranges: seq<Window>, s: State) {
    |s.threads| == |ranges|
    && (forall k :: 0 <= k < |ranges| ==> ThreadOk(cfg, ranges[k], s.threads[k], s.cancelled, s.exchanges))
    && (s.cancelled ==> exists k: nat :: Cause(s, k)) && GatheredAgrees(s)
  }

  lemma AnswerKeepsOk(cfg: Config, ranges: seq<Window>, s: State, step: Step)
    requires Inv(cfg, ranges, s) && Enabled(cfg, s, step) && step.Answer?
    ensures var s' := Apply(cfg, s, step);
            ThreadOk(cfg, ranges[step.k], s'.threads[step.k], s'.cancelled, s'.exchanges)
            && !s'.threads[step.k].collected
  {
    hide Partly, Detected, AfterText, GatheredAgrees, Cause;
    var t, range := s.threads[step.k], ranges[step.k];
    assert ThreadOk(cfg, range, t, s.cancelled, s.exchanges);
    if step.wire.Some? && step.reply.Text? {
      var sent := Sent(t.todo[0], step.wire.value, step.reply.response);
      OthersKeepOk(cfg, range, t, s.cancelled, s.exchanges, s.cancelled, s.exchanges + {sent});
      TextKeepsOk(cfg, range, t, s.cancelled, s.exchanges, sent);
    }
  }

  lemma StepKeepsThreads(cfg: Config, ranges: seq<Window>, s: State, step: Step)
    requires Inv(cfg, ranges, s) && Enabled(cfg, s, step)
    ensures var s' := Apply(cfg, s, step);
            |s'.threads| == |ranges|
            && forall k :: 0 <= k < |ranges| ==> ThreadOk(cfg, ranges[k], s'.threads[k], s'.cancelled, s'.exchanges)
  {
    hide Partly, Detected, AfterAnswer, GatheredAgrees, Cause;
    var s' := Apply(cfg, s, step);
    forall k | 0 <= k < |ranges|
      ensures ThreadOk(cfg, ranges[k], s'.threads[k], s'.cancelled, s'.exchanges)
    {
      assert ThreadOk(cfg, ranges[k], s.threads[k], s.cancelled, s.exchanges);
      if k == step.k && step.Answer? {
        AnswerKeepsOk(cfg, ranges, s, step);
      } else if k != step.k {
        OthersKeepOk(cfg, ranges[k], s.threads[k], s.cancelled, s.exchanges, s'.cancelled, s'.exchanges);
      }
    }
  }

  lemma StepKeepsCause(cfg: Config, ranges: seq<Window>, s: State, step: Step)
    requires Inv(cfg, ranges, s) && Enabled(cfg, s, step) && Apply(cfg, s, step).cancelled
    ensures exists k: nat :: Cause(Apply(cfg, s, step), k)
  {
    hide ThreadOk, GatheredAgrees, AfterAnswer;
    var s' := Apply(cfg, s, step);
    if s.cancelled {
      var k: nat :| Cause(s, k);
      assert Cause(s', k);
    } else {
      assert Cause(s', step.k);
    }
  }

  lemma StepKeepsGathered(cfg: Config, ranges: seq<Window>, s: State, step: Step)
    requires Inv(cfg, ranges, s) && Enabled(cfg, s, step)
    ensures GatheredAgrees(Apply(cfg, s, step))
  {
    hide Partly, Detected, AfterText, Cause;
    var s' := Apply(cfg, s, step);
    assert ThreadOk(cfg, ranges[step.k], s.threads[step.k], s.cancelled, s.exchanges);
    hide ThreadOk;
    if step.Answer? { AnswerLeavesUncollected(cfg, s, step); }
    if step.Collect? {
      assert s'.threads[step.k].collected;
    } else {
      assert !s.threads[step.k].collected && !s'.threads[step.k].collected;
      assert forall k :: 0 <= k < |s.threads| && k != step.k ==> s'.threads[k] == s.threads[k];
      SameCollected(s, s', step.k);
    }
    if step.Collect? { CollectGathers(cfg, s, step.k); }
  }

  lemma AnswerLeavesUncollected(cfg: Config, s: State, step: Step)
    requires Enabled(cfg, s, step) && step.Answer?
    ensures Apply(cfg, s, step).threads[step.k].collected == s.threads[step.k].collected
  {}

  lemma SameCollected(s: State, s': State, k: nat)
    requires GatheredAgrees(s) && |s'.threads| == |s.threads| && k < |s.threads| && s'.gathered == s.gathered
    requires forall j :: 0 <= j < |s.threads| && j != k ==> s'.threads[j] == s.threads[j]
    requires !s.threads[k].collected && !s'.threads[k].collected
    ensures GatheredAgrees(s')
  {
    forall j | 0 <= j < |s.threads| && s.threads[j].collected
      ensures s'.threads[j] == s.threads[j]
    {}
    forall j | 0 <= j < |s'.threads| && s'.threads[j].collected
      ensures s'.threads[j] == s.threads[j]
    {}
  }

  lemma CollectGathers(cfg: Config, s: State, k: nat)
    requires GatheredAgrees(s) && Enabled(cfg, s, Collect(k))
    ensures GatheredAgrees(Apply(cfg, s, Collect(k)))
  {
    var s' := Apply(cfg, s, Collect(k));
    assert s'.threads[k] == s.threads[k].(collected := true);
    assert forall j :: 0 <= j < |s.threads| && j != k ==> s'.threads[j] == s.threads[j];
  }

  lemma StepKeepsInv(cfg: Config, ranges: seq<Window>, s: State, step: Step)
    requires Inv(cfg, ranges, s) && Enabled(cfg, s, step)
    ensures Inv(cfg, ranges, Apply(cfg, s, step))
  {
    hide ThreadOk, GatheredAgrees, Apply, Enabled, Cause;
    StepKeepsThreads(cfg, ranges, s, step);
    StepKeepsGathered(cfg, ranges, s, step);
    if Apply(cfg, s, step).cancelled { StepKeepsCause(cfg, ranges, s, step); }
  }

  lemma {:induction false} RunsKeepInv(cfg: Config, ranges: seq<Window>, xs: seq<State>, steps: seq<Step>, i: nat)
    requires IsRun(cfg, ranges, xs, steps) && i < |xs|
    requires forall k :: 0 <= k < |ranges| ==> Fits(ranges[k], cfg.file)
    ensures Inv(cfg, ranges, xs[i])
  {
    hide Apply, Enabled, Partly;
    if i > 0 {
      RunsKeepInv(cfg, ranges, xs, steps, i - 1);
      StepKeepsInv(cfg, ranges, xs[i - 1], steps[i - 1]);
    } else {
      forall k | 0 <= k < |ranges|
        ensures ThreadOk(cfg, ranges[k], xs[0].threads[k], xs[0].cancelled, xs[0].exchanges)
      {
        StartIsPartly(cfg, ranges[k]);
      }
    }
  }

  predicate AllCollected(s: State) { forall t <- s.threads :: t.collected }

  // Whatever the interleaving of requests, answers, cancellations and collections: the verdict is clean exactly
  // when every range ended clean, infected exactly when some range did, and never that ranges are missing.
  lemma VerdictOfRanges(cfg: Config, ranges: seq<Window>, xs: seq<State>, steps: seq<Step>)
    requires IsRun(cfg, ranges, xs, steps) && AllCollected(xs[|steps|])
    requires forall k :: 0 <= k < |ranges| ==> Fits(ranges[k], cfg.file)
    ensures var s := xs[|steps|];
            var verdict := C.Judge(s.gathered, |ranges|);
            |s.threads| == |ranges| && verdict != C.Incomplete
            && (verdict == C.CleanFile <==> forall k :: 0 <= k < |ranges| ==> s.threads[k].ending == Some(C.Clean))
            && (verdict == C.InfectedFile <==>
                  exists k :: 0 <= k < |ranges| && s.threads[k].ending == Some(C.Infected))
            && (verdict == C.InfectedFile ==> Detected(cfg.file, s.exchanges))
  {
    hide Apply, Enabled, Partly, Detected, IsRun;
    RunShape(cfg, ranges, xs, steps);
    RunsKeepInv(cfg, ranges, xs, steps, |steps|);
    var s := xs[|steps|];
    assert forall k :: 0 <= k < |ranges| ==> s.threads[k] in s.threads && s.threads[k].collected;
    assert forall k :: 0 <= k < |ranges| ==> ThreadOk(cfg, ranges[k], s.threads[k], s.cancelled, s.exchanges);
    C.CountBelow(s.gathered.outcomes, |ranges|);
    if s.cancelled {
      var k: nat :| Cause(s, k);
      assert s.threads[k].collected;
    } else {
      forall k | 0 <= k < |ranges|
        ensures s.threads[k].ending == Some(C.Clean)
      {
        assert s.threads[k].ending.Some?;
        match s.threads[k].ending.value {
          case Clean =>
          case Infected =>
          case Failed =>
          case Dropped =>
        }
      }
    }
  }

  lemma RunShape(cfg: Config, ranges: seq<Window>, xs: seq<State>, steps: seq<Step>)
    requires IsRun(cfg, ranges, xs, steps)
    ensures |xs| == |steps| + 1
  {}

  // So a clean verdict on a planned file means that every byte, and every run of at most `overlap + 1` bytes, was
  // delivered in one window as it is in the file and answered OK.
  lemma CleanFileIsInspected(cfg: Config, ranges: seq<Window>, xs: seq<State>, steps: seq<Step>, i: nat, n: nat)
    returns (sent: Sent)
    requires IsPlan(ranges, |cfg.file|, cfg.window, cfg.overlap) && IsRun(cfg, ranges, xs, steps)
    requires AllCollected(xs[|steps|]) && C.Judge(xs[|steps|].gathered, |ranges|) == C.CleanFile
    requires 0 < n <= cfg.overlap + 1 && i + n <= |cfg.file|
    ensures sent in xs[|steps|].exchanges && Matches(sent, sent.window, cfg.file) && Contains(sent.window, i, n)
  {
    hide Apply, Enabled, IsRun, IsPlan, Matches, Covers;
    RunShape(cfg, ranges, xs, steps);
    PlanFits(cfg, ranges);
    VerdictOfRanges(cfg, ranges, xs, steps);
    RunsKeepInv(cfg, ranges, xs, steps, |steps|);
    var s := xs[|steps|];
    var lines := seq(|ranges|, k requires 0 <= k < |ranges| => s.threads[k].lines);
    forall k | 0 <= k < |ranges|
      ensures Resolved(ranges[k], lines[k], cfg.minimum, cfg.overlap, cfg.file, s.exchanges)
    {
      assert ThreadOk(cfg, ranges[k], s.threads[k], s.cancelled, s.exchanges);
      PartlyWithNothingToDo(cfg, ranges[k], lines[k], s.exchanges);
    }
    sent := CleanMeansInspected(cfg.file, cfg.window, cfg.minimum, cfg.overlap, ranges, lines, s.exchanges, i, n);
  }

  lemma PlanFits(cfg: Config, ranges: seq<Window>)
    requires IsPlan(ranges, |cfg.file|, cfg.window, cfg.overlap)
    ensures forall k :: 0 <= k < |ranges| ==> Fits(ranges[k], cfg.file)
  {}

  lemma PartlyWithNothingToDo(cfg: Config, range: Window, lines: seq<Line>, exchanges: set<Sent>)
    requires Partly(cfg, range, lines, [], exchanges)
    ensures Resolved(range, lines, cfg.minimum, cfg.overlap, cfg.file, exchanges)
  {
    hide Covers, RangeScan.Answered;
    assert Leaves(lines) + [] == Leaves(lines);
  }

  // ---------- replies that allow a clean end, and replies that do not ----------

  // Sending goes through, the file stays the same, and ClamD answers OK or that the window is too large for it
  // while it may still be split.
  ghost predicate SmoothAnswer(cfg: Config, s: State, step: Step)
    requires Enabled(cfg, s, step)
  {
    step.Answer? ==>
      step.wire.Some? && step.sameFile && Smooth(step.reply, s.threads[step.k].todo[0], cfg.minimum, cfg.overlap)
  }

  ghost predicate Unharmed(s: State) {
    !s.cancelled && forall t <- s.threads :: t.ending.None? || t.ending == Some(C.Clean)
  }

  lemma SmoothTextGoesOn(cfg: Config, t: Thread, reply: Reply)
    requires t.todo != [] && t.ending.None? && Smooth(reply, t.todo[0], cfg.minimum, cfg.overlap)
    ensures reply.Text?
    ensures var t' := AfterText(cfg, t, reply.response); t'.ending.None? || t'.ending == Some(C.Clean)
  {
    hide ScanReply.Parse, ScanReply.TooLarge, ScanReply.Divisible;
    ScanReply.LimitsDecide(reply.response);
  }

  lemma SmoothStep(cfg: Config, s: State, step: Step)
    requires Enabled(cfg, s, step) && Unharmed(s) && SmoothAnswer(cfg, s, step)
    ensures Unharmed(Apply(cfg, s, step))
  {
    hide Smooth, AfterText;
    var s' := Apply(cfg, s, step);
    assert s.threads[step.k] in s.threads;
    if step.Answer? { SmoothTextGoesOn(cfg, s.threads[step.k], step.reply); }
    forall t <- s'.threads
      ensures t.ending.None? || t.ending == Some(C.Clean)
    {
      var j :| 0 <= j < |s'.threads| && s'.threads[j] == t;
      if j != step.k { assert s.threads[j] in s.threads; }
    }
  }

  lemma {:induction false} SmoothRun(cfg: Config, ranges: seq<Window>, xs: seq<State>, steps: seq<Step>, i: nat)
    requires IsRun(cfg, ranges, xs, steps) && i < |xs|
    requires forall j :: 0 <= j < |steps| ==> Enabled(cfg, xs[j], steps[j]) && SmoothAnswer(cfg, xs[j], steps[j])
    ensures Unharmed(xs[i])
  {
    hide Enabled, Apply, SmoothAnswer;
    if i > 0 {
      SmoothRun(cfg, ranges, xs, steps, i - 1);
      SmoothStep(cfg, xs[i - 1], steps[i - 1]);
    }
  }

  // However the requests of the ranges interleave: when every window is answered OK or can be split because it is
  // too large for ClamD, the file is clean as soon as all ranges are collected.
  lemma SplittingResolves(cfg: Config, ranges: seq<Window>, xs: seq<State>, steps: seq<Step>)
    requires IsRun(cfg, ranges, xs, steps) && AllCollected(xs[|steps|])
    requires forall k :: 0 <= k < |ranges| ==> Fits(ranges[k], cfg.file)
    requires forall j :: 0 <= j < |steps| ==> Enabled(cfg, xs[j], steps[j]) && SmoothAnswer(cfg, xs[j], steps[j])
    ensures C.Judge(xs[|steps|].gathered, |ranges|) == C.CleanFile
  {
    hide IsRun, Enabled, Apply, SmoothAnswer, ThreadOk;
    RunShape(cfg, ranges, xs, steps);
    SmoothRun(cfg, ranges, xs, steps, |steps|);
    VerdictOfRanges(cfg, ranges, xs, steps);
    RunsKeepInv(cfg, ranges, xs, steps, |steps|);
    var s := xs[|steps|];
    forall k | 0 <= k < |ranges|
      ensures s.threads[k].ending == Some(C.Clean)
    {
      assert s.threads[k] in s.threads && s.threads[k].collected;
      CollectedHasEnded(cfg, ranges[k], s.threads[k], s.cancelled, s.exchanges);
    }
  }

  lemma CollectedHasEnded(cfg: Config, range: Window, t: Thread, cancelled: bool, exchanges: set<Sent>)
    requires ThreadOk(cfg, range, t, cancelled, exchanges) && t.collected
    ensures t.ending.Some?
  {}

  lemma HopelessFails(cfg: Config, s: State, step: Step)
    requires Enabled(cfg, s, step) && step.Answer? && step.wire.Some? && Hopeless(step.reply)
    ensures Apply(cfg, s, step).threads[step.k] == Ended(s.threads[step.k], C.Failed)
  {
    hide ScanReply.Parse, ScanReply.OtherLimit, ScanReply.Divisible;
    ScanReply.LimitsDecide(step.reply.response);
  }

  lemma AlarmInfects(cfg: Config, s: State, step: Step)
    requires Enabled(cfg, s, step) && step.Answer? && step.wire.Some? && step.sameFile && Alarming(step.reply)
    ensures Apply(cfg, s, step).threads[step.k].ending == Some(C.Infected)
  {
    hide ScanReply.Parse;
  }

  lemma EndedStaysForAStep(cfg: Config, s: State, step: Step, k: nat)
    requires Enabled(cfg, s, step) && k < |s.threads| && s.threads[k].ending.Some?
    ensures var t, t' := s.threads[k], Apply(cfg, s, step).threads[k];
            t'.ending == t.ending && t'.todo == t.todo && t'.lines == t.lines
    ensures step != Ask(k) && !(step.Answer? && step.k == k)
  {}

  // A range that has ended stays as it is and sends nothing more.
  lemma {:induction false} EndedStays(cfg: Config, ranges: seq<Window>, xs: seq<State>, steps: seq<Step>, i: nat,
                                      m: nat, k: nat)
    requires IsRun(cfg, ranges, xs, steps) && i <= m < |xs| && k < |xs[i].threads| && xs[i].threads[k].ending.Some?
    ensures k < |xs[m].threads|
            && var t, t' := xs[i].threads[k], xs[m].threads[k];
               t'.ending == t.ending && t'.todo == t.todo && t'.lines == t.lines
    ensures forall j :: i <= j < m ==> steps[j] != Ask(k) && !(steps[j].Answer? && steps[j].k == k)
  {
    hide Apply, Enabled;
    if i < m {
      EndedStays(cfg, ranges, xs, steps, i, m - 1, k);
      ThreadsStay(cfg, xs[m - 1], steps[m - 1]);
      EndedStaysForAStep(cfg, xs[m - 1], steps[m - 1], k);
    }
  }

  // A reply that reports any other limit ends its range as failed: nothing is split, and the range sends no
  // further window in the rest of the run.
  lemma OtherLimitEndsRange(cfg: Config, ranges: seq<Window>, xs: seq<State>, steps: seq<Step>, i: nat, m: nat)
    requires IsRun(cfg, ranges, xs, steps) && i < m < |xs|
    requires steps[i].Answer? && steps[i].wire.Some? && Hopeless(steps[i].reply)
    ensures var k := steps[i].k;
            k < |xs[i].threads| && k < |xs[m].threads| && xs[m].threads[k].ending == Some(C.Failed)
            && xs[m].threads[k].todo == xs[i].threads[k].todo && xs[m].threads[k].lines == xs[i].threads[k].lines
            && forall j :: i < j < m ==> steps[j] != Ask(k) && !(steps[j].Answer? && steps[j].k == k)
  {
    hide Apply, Hopeless, AfterAnswer;
    assert Enabled(cfg, xs[i], steps[i]);
    HopelessFails(cfg, xs[i], steps[i]);
    ThreadsStay(cfg, xs[i], steps[i]);
    EndedStays(cfg, ranges, xs, steps, i + 1, m, steps[i].k);
  }

  // A reply that names a threat makes the file infected, whatever the other ranges end with.
  lemma ThreatInfectsFile(cfg: Config, ranges: seq<Window>, xs: seq<State>, steps: seq<Step>, i: nat)
    requires IsRun(cfg, ranges, xs, steps) && AllCollected(xs[|steps|]) && i < |steps|
    requires forall k :: 0 <= k < |ranges| ==> Fits(ranges[k], cfg.file)
    requires steps[i].Answer? && steps[i].wire.Some? && steps[i].sameFile && Alarming(steps[i].reply)
    ensures C.Judge(xs[|steps|].gathered, |ranges|) == C.InfectedFile
  {
    hide Apply, Alarming, AfterAnswer, AllCollected;
    assert Enabled(cfg, xs[i], steps[i]);
    AlarmInfects(cfg, xs[i], steps[i]);
    ThreadsStay(cfg, xs[i], steps[i]);
    EndedStays(cfg, ranges, xs, steps, i + 1, |steps|, steps[i].k);
    VerdictOfRanges(cfg, ranges, xs, steps);
  }

  // An answer that is none: sending broke off, the connection did, or the file has changed.
  predicate Unusable(step: Step)
    requires step.Answer?
  {
    step.wire.None? || !step.reply.Text? || !step.sameFile
  }

  lemma UnusableEnds(cfg: Config, s: State, step: Step)
    requires Enabled(cfg, s, step) && step.Answer? && Unusable(step)
    ensures var ending := Apply(cfg, s, step).threads[step.k].ending;
            ending == Some(C.Failed)
            || (ending == Some(C.Dropped) && s.cancelled && step.reply.Interrupted? && !step.reply.stopAsked)
  {
    hide AfterText;
  }

  // It never passes for a clean one, nor does a limit that splitting cannot resolve.
  lemma UnusableIsNotClean(cfg: Config, ranges: seq<Window>, xs: seq<State>, steps: seq<Step>, i: nat)
    requires IsRun(cfg, ranges, xs, steps) && AllCollected(xs[|steps|]) && i < |steps|
    requires forall k :: 0 <= k < |ranges| ==> Fits(ranges[k], cfg.file)
    requires steps[i].Answer? && (Unusable(steps[i]) || (steps[i].wire.Some? && Hopeless(steps[i].reply)))
    ensures C.Judge(xs[|steps|].gathered, |ranges|) != C.CleanFile
  {
    hide Apply, AfterAnswer, AllCollected, Hopeless, Unusable;
    assert Enabled(cfg, xs[i], steps[i]);
    if Unusable(steps[i]) { UnusableEnds(cfg, xs[i], steps[i]); } else { HopelessFails(cfg, xs[i], steps[i]); }
    ThreadsStay(cfg, xs[i], steps[i]);
    EndedStays(cfg, ranges, xs, steps, i + 1, |steps|, steps[i].k);
    VerdictOfRanges(cfg, ranges, xs, steps);
  }

  lemma ThreadsStay(cfg: Config, s: State, step: Step)
    requires Enabled(cfg, s, step)
    ensures |Apply(cfg, s, step).threads| == |s.threads|
  {
    hide AfterAnswer;
  }
}
