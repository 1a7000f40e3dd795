// The one action after a clean promotion: claimed durably before it starts, and never repeated on its own.
module Hooks {
  import opened Options

  type JobId = nat
  type Path = seq<string>

  datatype Status = Unqueued | Pending | Running | Succeeded | Failed | Interrupted | Cancelled
  datatype Kind = Script | Copy

  datatype Rule = Rule(source: Path, destination: Path, enabled: bool)

  datatype Settings = Settings(copyEnabled: bool, scriptEnabled: bool, script: Option<string>, rules: seq<Rule>)

  // The hook fields of a job, and what the promotion left: `promoted` stands for state "done" with
  // its scan and promotion times, and the content path it verified.
  datatype Row = Row(
    status: Status, kind: Option<Kind>, script: Option<string>,
    destination: Option<Path>, root: Option<Path>, relative: Option<Path>, attempts: nat,
    promoted: bool, finalParent: Path, contentPath: Option<Path>)

  datatype Claim = Claim(job: JobId, attempt: nat)

  // ---------- the winning rule ----------

  predicate Applies(rule: Rule, parent: Path) { rule.enabled && rule.source <= parent }

  // The first of the longest enabled ancestors.
  function MatchingRule(parent: Path, rules: seq<Rule>): Option<Rule> {
    if rules == [] then None
    else
      var rest := MatchingRule(parent, rules[..|rules| - 1]);
      var last := rules[|rules| - 1];
      if Applies(last, parent) && (rest.None? || |last.source| > |rest.value.source|) then Some(last) else rest
  }

  predicate Wins(rule: Rule, parent: Path, rules: seq<Rule>) {
    rule in rules && Applies(rule, parent)
    && forall other <- rules :: Applies(other, parent) ==> |other.source| <= |rule.source|
  }

  predicate UniqueSources(rules: seq<Rule>) {
    forall a <- rules, b <- rules :: a.source == b.source ==> a == b
  }

  lemma {:induction false} MatchingRuleWins(parent: Path, rules: seq<Rule>)
    ensures MatchingRule(parent, rules).Some? ==> Wins(MatchingRule(parent, rules).value, parent, rules)
    ensures MatchingRule(parent, rules).None? <==> forall rule <- rules :: !Applies(rule, parent)
  {
    if rules != [] {
      var front, last := rules[..|rules| - 1], rules[|rules| - 1];
      MatchingRuleWins(parent, front);
      assert forall rule :: rule in rules <==> rule in front || rule == last;
    }
  }

  // With unique sources the winner is the only rule that is a longest enabled ancestor, so the order of
  // the rules does not matter.
  lemma WinnerIsUnique(parent: Path, rules: seq<Rule>, a: Rule, b: Rule)
    requires UniqueSources(rules) && Wins(a, parent, rules) && Wins(b, parent, rules)
    ensures a == b
  {
    assert a.source == parent[..|a.source|] && b.source == parent[..|b.source|];
  }

  lemma RuleOrderDoesNotMatter(parent: Path, rules: seq<Rule>, others: seq<Rule>)
    requires UniqueSources(rules) && forall rule :: rule in rules <==> rule in others
    ensures MatchingRule(parent, rules) == MatchingRule(parent, others)
  {
    MatchingRuleWins(parent, rules);
    MatchingRuleWins(parent, others);
    if MatchingRule(parent, rules).Some? {
      WinnerIsUnique(parent, rules, MatchingRule(parent, rules).value, MatchingRule(parent, others).value);
    }
  }

  // ---------- queueing ----------

  function ChosenKind(row: Row, s: Settings): Kind {
    if row.kind.Some? then row.kind.value
    else if row.script.Some? then Script
    else if s.copyEnabled then Copy
    else Script
  }

  function Routed(row: Row, s: Settings): Option<Row> {
    if row.destination.Some? then Some(row)
    else
      var rule :- MatchingRule(row.finalParent, s.rules);
      var source :- row.contentPath;
      if rule.source < source then
        Some(row.(destination := Some(rule.destination), root := Some(rule.source),
                  relative := Some(source[|rule.source|..])))
      else None
  }

  // The row once the action is queued, or None when there is nothing to queue.
  function Queued(row: Row, s: Settings): Option<Row> {
    if row.status != Unqueued || !row.promoted then None
    else match ChosenKind(row, s)
      case Copy =>
        if !s.copyEnabled then None
        else
          var routed :- Routed(row, s);
          Some(routed.(status := Pending, kind := Some(Copy), script := None))
      case Script =>
        if !s.scriptEnabled || s.script.None? then None
        else Some(row.(status := Pending, kind := Some(Script), script := s.script, destination := None, root := None,
                       relative := None))
  }

  // A copy that is queued without a route goes where the winning rule says, and the rest of the path below the
  // rule's source is kept; if no rule applies, or the content is not below its source, nothing is queued.
  lemma QueuedFollowsWinner(row: Row, s: Settings)
    requires row.destination.None? && ChosenKind(row, s) == Copy
    ensures match Queued(row, s)
            case Some(after) =>
              row.contentPath.Some? && after.kind == Some(Copy) && after.status == Pending
              && exists rule :: Wins(rule, row.finalParent, s.rules) && after.destination == Some(rule.destination)
                                && after.root == Some(rule.source) && after.relative.Some? && after.relative.value != []
                                && rule.source + after.relative.value == row.contentPath.value
            case None =>
              row.status != Unqueued || !row.promoted || !s.copyEnabled || row.contentPath.None?
              || (forall rule <- s.rules :: !Applies(rule, row.finalParent))
              || exists rule :: Wins(rule, row.finalParent, s.rules) && !(rule.source < row.contentPath.value)
  {
    MatchingRuleWins(row.finalParent, s.rules);
    hide MatchingRule, Wins, Applies;
    if MatchingRule(row.finalParent, s.rules).Some? && row.contentPath.Some? {
      var rule, source := MatchingRule(row.finalParent, s.rules).value, row.contentPath.value;
      assert Wins(rule, row.finalParent, s.rules);
      if rule.source < source { assert rule.source + source[|rule.source|..] == source; }
    }
  }

  // The first action of a promoted job: a copy when copies are enabled, and otherwise the script, if there is one.
  lemma FirstAction(row: Row, s: Settings)
    requires row.status == Unqueued && row.kind.None? && row.script.None?
    ensures Queued(row, s).Some? ==> row.promoted && Queued(row, s).value.status == Pending
    ensures s.copyEnabled && Queued(row, s).Some? ==> Queued(row, s).value.kind == Some(Copy)
    ensures !s.copyEnabled ==>
              Queued(row, s) == if row.promoted && s.scriptEnabled && s.script.Some?
                                then Some(row.(status := Pending, kind := Some(Script), script := s.script,
                                               destination := None, root := None, relative := None))
                                else None
  {
    hide MatchingRule;
  }

  predicate MayRetry(row: Row, s: Settings) {
    (row.status == Failed || row.status == Interrupted)
    && (if row.kind == Some(Copy) then s.copyEnabled else s.scriptEnabled)
  }

  function Requeued(row: Row, s: Settings): Option<Row> {
    if MayRetry(row, s) then Queued(row.(status := Unqueued), s) else None
  }

  // ---------- one step of the program ----------

  // `claims` are held by runners that have not started their process, `started` by runners whose process
  // runs.  `issued`, `requests` and `starts` are history: attempts claimed, requests made and processes
  // started, kept even after a job is deleted.
  datatype World = World(
    rows: map<JobId, Row>, claims: set<Claim>, started: set<Claim>,
    issued: map<JobId, nat>, requests: map<JobId, nat>, starts: seq<Claim>)

  datatype Event =
    | Promote(id: JobId, row: Row, settings: Settings)
    | Retry(id: JobId, settings: Settings)
    | CancelCopy(id: JobId)
    | RecoverInterrupted
    | FailPreflight(id: JobId)
    | ClaimJob(id: JobId)
    | Start(claim: Claim)
    | Finish(claim: Claim, status: Status)
    | Vanish(claim: Claim)
    | Delete(id: JobId)

  predicate Enabled(w: World, e: Event) {
    match e
    case Promote(id, row, _) => id !in w.issued && row.status == Unqueued && row.attempts == 0 && row.promoted
                                && row.root.None? && row.relative.None? && row.destination.None?
    case Start(claim) => claim in w.claims
    case Finish(claim, status) =>
      (claim in w.claims || claim in w.started) && (status == Succeeded || status == Failed || status == Interrupted)
    case _ => true
  }

  function Recovered(row: Row): Row { if row.status == Running then row.(status := Interrupted) else row }

  function RecoverAll(rows: map<JobId, Row>): map<JobId, Row> {
    map id | id in rows :: Recovered(rows[id])
  }

  predicate MayCancel(row: Row) {
    row.kind == Some(Copy) && (row.status == Pending || row.status == Failed || row.status == Interrupted)
  }

  predicate MayDelete(row: Row) { row.status != Pending && row.status != Running }

  function Claimed(row: Row): Row { row.(status := Running, attempts := row.attempts + 1) }

  function Finished(rows: map<JobId, Row>, claim: Claim, status: Status): map<JobId, Row> {
    if claim.job in rows && rows[claim.job].status == Running && rows[claim.job].attempts == claim.attempt
    then rows[claim.job := rows[claim.job].(status := status)] else rows
  }

  function Count(counts: map<JobId, nat>, id: JobId): nat { if id in counts then counts[id] else 0 }

  function Apply(w: World, e: Event): World
    requires Enabled(w, e)
  {
    match e
    case Promote(id, row, s) =>
      var queued := Queued(row, s);
      w.(rows := w.rows[id := if queued.Some? then queued.value else row], issued := w.issued[id := 0],
         requests := w.requests[id := if queued.Some? then 1 else 0])
    case Retry(id, s) =>
      if id in w.rows && Requeued(w.rows[id], s).Some? then
        w.(rows := w.rows[id := Requeued(w.rows[id], s).value], requests := w.requests[id := Count(w.requests, id) + 1])
      else w
    case CancelCopy(id) =>
      if id in w.rows && MayCancel(w.rows[id]) then w.(rows := w.rows[id := w.rows[id].(status := Cancelled)]) else w
    case RecoverInterrupted => w.(rows := RecoverAll(w.rows))
    case FailPreflight(id) =>
      if id in w.rows && w.rows[id].status == Pending then
        w.(rows := w.rows[id := w.rows[id].(status := Failed)])
      else w
    case ClaimJob(id) =>
      if id in w.rows && w.rows[id].status == Pending then
        var row := Claimed(w.rows[id]);
        w.(rows := w.rows[id := row], issued := w.issued[id := row.attempts], claims := w.claims + {Claim(id,
            row.attempts)})
      else w
    case Start(claim) =>
      w.(claims := w.claims - {claim}, started := w.started + {claim}, starts := w.starts + [claim])
    case Finish(claim, status) =>
      w.(rows := Finished(w.rows, claim, status), claims := w.claims - {claim}, started := w.started - {claim})
    case Vanish(claim) => w.(claims := w.claims - {claim}, started := w.started - {claim})
    case Delete(id) =>
      if id in w.rows && MayDelete(w.rows[id]) then w.(rows := w.rows - {id}) else w
  }

  // ---------- invariants ----------

  // The pinned route of a copy leads to the content.
  predicate RouteAgrees(row: Row) {
    (row.root.Some? <==> row.relative.Some?)
    && (row.root.Some? ==>
          row.destination.Some? && row.contentPath == Some(row.root.value + row.relative.value)
          && row.relative.value != [] && row.root.value <= row.finalParent)
  }

  predicate RowAgrees(w: World, id: JobId)
    requires id in w.rows
  {
    var row := w.rows[id];
    id in w.issued && id in w.requests && row.attempts == w.issued[id]
    && row.attempts + (if row.status == Pending then 1 else 0) <= w.requests[id]
    && (row.status == Running ==> row.attempts > 0)
    && RouteAgrees(row)
  }

  // Claims and starts carry attempts that were issued, and no attempt is started twice.
  ghost predicate Inv(w: World) {
    (forall id <- w.rows :: RowAgrees(w, id))
    && w.issued.Keys == w.requests.Keys
    && (forall id <- w.issued :: w.issued[id] <= w.requests[id])
    && (forall c <- w.claims :: c.job in w.issued && 0 < c.attempt <= w.issued[c.job] && c !in w.starts)
    && (forall c <- w.starts :: c.job in w.issued && 0 < c.attempt <= w.issued[c.job])
    && NoneTwice(w.starts)
  }

  predicate NoneTwice(starts: seq<Claim>) {
    forall i, j :: 0 <= i < j < |starts| ==> starts[i] != starts[j]
  }

  lemma QueuedRoute(row: Row, s: Settings)
    requires RouteAgrees(row)
    ensures Queued(row, s).Some? ==>
              var q := Queued(row, s).value;
              RouteAgrees(q) && q.status == Pending && q.attempts == row.attempts
              && (row.root.Some? && q.kind == Some(Copy) ==>
                    q.destination == row.destination && q.root == row.root && q.relative == row.relative)
  {
    MatchingRuleWins(row.finalParent, s.rules);
    var rule := MatchingRule(row.finalParent, s.rules);
    if rule.Some? && row.contentPath.Some? && rule.value.source < row.contentPath.value {
      assert row.contentPath.value == rule.value.source + row.contentPath.value[|rule.value.source|..];
    }
  }

  lemma JobStepKeepsInv(w: World, e: Event)
    requires Inv(w) && Enabled(w, e) && (e.Promote? || e.Retry? || e.CancelCopy? || e.FailPreflight? || e.Delete?)
    ensures Inv(Apply(w, e))
  {
    hide Queued, Requeued, RouteAgrees, MayCancel, MayDelete, NoneTwice;
    var w' := Apply(w, e);
    forall id <- w'.rows
      ensures RowAgrees(w', id)
    {
      JobStepKeepsRow(w, e, id);
    }
  }

  lemma JobStepKeepsRow(w: World, e: Event, id: JobId)
    requires Inv(w) && Enabled(w, e) && (e.Promote? || e.Retry? || e.CancelCopy? || e.FailPreflight? || e.Delete?)
    requires id in Apply(w, e).rows
    ensures RowAgrees(Apply(w, e), id)
  {
    hide Queued, NoneTwice, MayDelete;
    if id in w.rows { assert RowAgrees(w, id); }
    match e {
      case Promote(_, row, s) => QueuedRoute(row, s);
      case Retry(j, s) => if j in w.rows { QueuedRoute(w.rows[j].(status := Unqueued), s); }
      case _ =>
    }
  }

  lemma RunnerStepKeepsInv(w: World, e: Event)
    requires Inv(w) && Enabled(w, e) && (e.ClaimJob? || e.Start? || e.Finish? || e.Vanish? || e.RecoverInterrupted?)
    ensures Inv(Apply(w, e))
  {
    hide RouteAgrees;
    var w' := Apply(w, e);
    RoutesUntouched(w, e);
    forall id <- w'.rows
      ensures RowAgrees(w', id)
    {
      assert RowAgrees(w, id);
    }
  }

  lemma RoutesUntouched(w: World, e: Event)
    requires Enabled(w, e) && (e.ClaimJob? || e.Start? || e.Finish? || e.Vanish? || e.RecoverInterrupted?)
    ensures forall id <- Apply(w, e).rows :: id in w.rows && (RouteAgrees(w.rows[id]) ==> RouteAgrees(Apply(w,
        e).rows[id]))
  {}

  lemma StepKeepsInv(w: World, e: Event)
    requires Inv(w) && Enabled(w, e)
    ensures Inv(Apply(w, e))
  {
    if e.Promote? || e.Retry? || e.CancelCopy? || e.FailPreflight? || e.Delete? {
      JobStepKeepsInv(w, e);
    } else {
      RunnerStepKeepsInv(w, e);
    }
  }

  // ---------- whole runs ----------

  predicate Initial(w: World) {
    w.rows == map[] && w.claims == {} && w.started == {} && w.issued == map[] && w.requests == map[] && w.starts == []
  }

  ghost predicate IsRun(ws: seq<World>, es: seq<Event>) {
    |ws| == |es| + 1 && Initial(ws[0])
    && forall i :: 0 <= i < |es| ==> Enabled(ws[i], es[i]) && ws[i + 1] == Apply(ws[i], es[i])
  }

  lemma {:induction false} RunsKeepInv(ws: seq<World>, es: seq<Event>, i: nat)
    requires IsRun(ws, es) && i < |ws|
    ensures Inv(ws[i])
  {
    if i > 0 {
      RunsKeepInv(ws, es, i - 1);
      StepKeepsInv(ws[i - 1], es[i - 1]);
    }
  }

  function StartsOf(starts: seq<Claim>, id: JobId): nat {
    if starts == [] then 0
    else StartsOf(starts[..|starts| - 1], id) + if starts[|starts| - 1].job == id then 1 else 0
  }

  function AttemptsOf(starts: seq<Claim>, id: JobId): set<nat> {
    set c <- starts | c.job == id :: c.attempt
  }

  lemma {:induction false} StartsAreAttempts(starts: seq<Claim>, id: JobId)
    requires NoneTwice(starts)
    ensures StartsOf(starts, id) == |AttemptsOf(starts, id)|
  {
    if starts != [] {
      var front, last := starts[..|starts| - 1], starts[|starts| - 1];
      StartsAreAttempts(front, id);
      assert forall c :: c in starts <==> c in front || c == last;
      if last.job == id {
        forall c <- front
          ensures c != last
        {}
        assert AttemptsOf(starts, id) == AttemptsOf(front, id) + {last.attempt};
        forall c <- front | c.job == id
          ensures c.attempt != last.attempt
        {
          assert c != last;
        }
      } else {
        assert AttemptsOf(starts, id) == AttemptsOf(front, id);
      }
    }
  }

  lemma {:induction false} AtMost(attempts: set<nat>, n: nat)
    requires forall a <- attempts :: 0 < a <= n
    ensures |attempts| <= n
  {
    if n > 0 {
      AtMost(attempts - {n}, n - 1);
    } else {
      assert attempts == {};
    }
  }

  // Whatever crashes, restarts and late finishes occur: the processes started for a job number at most the
  // requests made for it, one by its promotion and one by each explicit retry.
  lemma StartsAreRequested(ws: seq<World>, es: seq<Event>, i: nat, id: JobId)
    requires IsRun(ws, es) && i < |ws|
    ensures StartsOf(ws[i].starts, id) <= Count(ws[i].requests, id) <= 1 + RetriesOf(es[..i], id)
  {
    RunsKeepInv(ws, es, i);
    var w := ws[i];
    StartsAreAttempts(w.starts, id);
    if id in w.issued {
      AtMost(AttemptsOf(w.starts, id), w.issued[id]);
    } else {
      assert AttemptsOf(w.starts, id) == {};
    }
    RequestsAreRetries(ws, es, i, id);
  }

  function RetriesOf(es: seq<Event>, id: JobId): nat {
    if es == [] then 0
    else
      var last := es[|es| - 1];
      RetriesOf(es[..|es| - 1], id) + if last.Retry? && last.id == id then 1 else 0
  }

  lemma {:induction false} RequestsAreRetries(ws: seq<World>, es: seq<Event>, i: nat, id: JobId)
    requires IsRun(ws, es) && i < |ws|
    ensures Count(ws[i].requests, id) <= 1 + RetriesOf(es[..i], id)
    ensures id !in ws[i].requests ==> Count(ws[i].requests, id) == 0
  {
    if i > 0 {
      RunsKeepInv(ws, es, i - 1);
      RequestsAreRetries(ws, es, i - 1, id);
      assert es[..i][..i - 1] == es[..i - 1];
      assert es[..i][i - 1] == es[i - 1];
      RequestsInAStep(ws[i - 1], es[i - 1], id);
    }
  }

  lemma RequestsInAStep(w: World, e: Event, id: JobId)
    requires Inv(w) && Enabled(w, e)
    ensures Count(Apply(w, e).requests, id)
         <= if e.Promote? && e.id == id then 1 else Count(w.requests, id) + if e.Retry? && e.id == id then 1 else 0
  {}

  // Each claim of a job takes a later attempt than every claim and every start before it.
  lemma AttemptsStrictlyIncrease(ws: seq<World>, es: seq<Event>, i: nat, c: Claim)
    requires IsRun(ws, es) && i < |es| && c in ws[i + 1].claims && c !in ws[i].claims
    ensures forall other <- ws[i].claims :: other.job == c.job ==> other.attempt < c.attempt
    ensures forall other <- ws[i].starts :: other.job == c.job ==> other.attempt < c.attempt
  {
    RunsKeepInv(ws, es, i);
    assert Enabled(ws[i], es[i]);
    assert es[i].ClaimJob?;
    assert RowAgrees(ws[i], c.job);
  }

  // A row gets an outcome only from the claim it is running; a finish of any other attempt changes no row.
  lemma StaleFinishIsIgnored(ws: seq<World>, es: seq<Event>, i: nat)
    requires IsRun(ws, es) && i < |es| && es[i].Finish?
    ensures var c := es[i].claim;
            forall id <- ws[i].rows :: ws[i + 1].rows[id] != ws[i].rows[id] ==>
              id == c.job && ws[i].rows[id].status == Running && c.attempt == Count(ws[i].issued, id)
    ensures ws[i + 1].rows.Keys == ws[i].rows.Keys
  {
    RunsKeepInv(ws, es, i);
    assert Enabled(ws[i], es[i]);
    forall id <- ws[i].rows
      ensures RowAgrees(ws[i], id)
    {}
  }

  // The status of a row after a step: only its own events change it, each to exactly this.
  lemma StatusAfterStep(ws: seq<World>, es: seq<Event>, i: nat, id: JobId)
    requires IsRun(ws, es) && i < |es| && id in ws[i].rows && id in ws[i + 1].rows
    ensures var row, after := ws[i].rows[id], ws[i + 1].rows[id];
            match es[i]
            case Retry(j, s) =>
              if j != id || (row.status != Failed && row.status != Interrupted) then after == row
              else if row.kind == Some(Copy) && row.root.Some? then
                after == if s.copyEnabled && row.promoted then row.(status := Pending, script := None) else row
              else after == row || after.status == Pending
            case CancelCopy(j) =>
              after == if j == id && row.kind == Some(Copy) && row.status in {Pending, Failed, Interrupted}
                       then row.(status := Cancelled) else row
            case RecoverInterrupted => after == if row.status == Running then row.(status := Interrupted) else row
            case FailPreflight(j) => after == if j == id && row.status == Pending then row.(status := Failed) else row
            case ClaimJob(j) =>
              after == if j == id && row.status == Pending
                       then row.(status := Running, attempts := row.attempts + 1) else row
            case Finish(claim, status) =>
              after == if claim.job == id && row.status == Running && row.attempts == claim.attempt
                       then row.(status := status) else row
            case _ => after == row
  {
    RunsKeepInv(ws, es, i);
    assert RowAgrees(ws[i], id);
    assert Enabled(ws[i], es[i]);
    hide Inv, IsRun, MatchingRule, RowAgrees;
  }

  // A job that waits for its action or runs it stays in the history.
  lemma ActiveJobIsNotDeleted(ws: seq<World>, es: seq<Event>, i: nat, id: JobId)
    requires IsRun(ws, es) && i < |es| && id in ws[i].rows && id !in ws[i + 1].rows
    ensures es[i] == Delete(id) && ws[i].rows[id].status != Pending && ws[i].rows[id].status != Running
  {
    assert Enabled(ws[i], es[i]);
  }

  // Once a copy is routed, every later attempt of the job has the same destination, root and relative path,
  // and root and relative path always lead to the promoted content.
  lemma {:induction false} CopyRouteIsPinned(ws: seq<World>, es: seq<Event>, i: nat, k: nat, id: JobId)
    requires IsRun(ws, es) && i <= k < |ws| && id in ws[i].rows && id in ws[k].rows
    requires ws[i].rows[id].kind == Some(Copy) && ws[i].rows[id].root.Some?
    ensures SameRoute(ws[i].rows[id], ws[k].rows[id]) && RouteAgrees(ws[k].rows[id])
  {
    hide Apply, Enabled, RouteAgrees, SameRoute;
    RunsKeepInv(ws, es, k);
    RouteHolds(ws[k], id);
    if i < k {
      StillThere(ws, es, i, k - 1, id);
      CopyRouteIsPinned(ws, es, i, k - 1, id);
      RunsKeepInv(ws, es, k - 1);
      RouteStaysSame(ws[i].rows[id], ws[k - 1], es[k - 1], id);
    } else {
      RouteIsItself(ws[i].rows[id]);
    }
  }

  // The same copy, to the same place, of the same content.
  predicate SameRoute(row: Row, later: Row) {
    later.kind == Some(Copy) && later.root.Some? && later.destination == row.destination && later.root == row.root
    && later.relative == row.relative && later.contentPath == row.contentPath
  }

  lemma RouteIsItself(row: Row)
    requires row.kind == Some(Copy) && row.root.Some?
    ensures SameRoute(row, row)
  {}

  lemma RouteHolds(w: World, id: JobId)
    requires Inv(w) && id in w.rows
    ensures RouteAgrees(w.rows[id])
  {
    assert RowAgrees(w, id);
  }

  lemma RouteStaysSame(row: Row, w: World, e: Event, id: JobId)
    requires Enabled(w, e) && Inv(w) && id in w.rows && id in Apply(w, e).rows && SameRoute(row, w.rows[id])
    ensures SameRoute(row, Apply(w, e).rows[id])
  {
    hide Apply, Enabled, Inv;
    RouteInAStep(w, e, id);
  }

  lemma RouteInAStep(w: World, e: Event, id: JobId)
    requires Enabled(w, e) && Inv(w) && id in w.rows && id in Apply(w, e).rows
    requires w.rows[id].kind == Some(Copy) && w.rows[id].root.Some?
    ensures SameRoute(w.rows[id], Apply(w, e).rows[id])
  {
    assert RowAgrees(w, id);
  }

  // A deleted job does not come back.
  lemma {:induction false} StillThere(ws: seq<World>, es: seq<Event>, i: nat, k: nat, id: JobId)
    requires IsRun(ws, es) && i <= k < |es| && id in ws[i].rows && id in ws[k + 1].rows
    ensures id in ws[k].rows
  {
    if id !in ws[k].rows {
      assert Enabled(ws[k], es[k]);
      IssuedStays(ws, es, i, k, id);
    }
  }

  lemma {:induction false} IssuedStays(ws: seq<World>, es: seq<Event>, i: nat, k: nat, id: JobId)
    requires IsRun(ws, es) && i <= k < |ws| && id in ws[i].rows
    ensures id in ws[k].issued
  {
    if i == k {
      RunsKeepInv(ws, es, i);
      assert RowAgrees(ws[i], id);
    } else {
      assert Enabled(ws[k - 1], es[k - 1]);
      IssuedStays(ws, es, i, k - 1, id);
    }
  }

  // ---------- the program ----------

  // What the read-only checks before a claim say.
  datatype Preflight = NotReady | Broken | Ready

  // One pass over the due jobs: broken ones fail, the first ready one is claimed.
  function ClaimFrom(w: World, due: seq<JobId>, preflight: JobId -> Preflight): (World, Option<Claim>)
    decreases |due|
  {
    if due == [] then (w, None)
    else
      var id, rest := due[0], due[1..];
      match preflight(id)
      case NotReady => ClaimFrom(w, rest, preflight)
      case Broken => ClaimFrom(Apply(w, FailPreflight(id)), rest, preflight)
      case Ready =>
        if id in w.rows && w.rows[id].status == Pending
        then (Apply(w, ClaimJob(id)), Some(Claim(id, w.rows[id].attempts + 1)))
        else ClaimFrom(w, rest, preflight)
  }

  // A pass is a run of single steps, so it keeps every invariant; it issues at most one claim.
  lemma {:induction false} PassKeepsInv(w: World, due: seq<JobId>, preflight: JobId -> Preflight)
    requires Inv(w)
    ensures var (w', claim) := ClaimFrom(w, due, preflight);
            Inv(w') && w'.claims == w.claims + (if claim.Some? then {claim.value} else {}) && w'.starts == w.starts
            && (claim.Some? ==> claim.value !in w.claims && claim.value.job in w'.rows
                                && w'.rows[claim.value.job].status == Running)
    decreases |due|
  {
    hide Inv, Queued;
    if due != [] {
      var id := due[0];
      match preflight(id) {
        case NotReady => PassKeepsInv(w, due[1..], preflight);
        case Broken =>
          StepKeepsInv(w, FailPreflight(id));
          PassKeepsInv(Apply(w, FailPreflight(id)), due[1..], preflight);
        case Ready =>
          if id in w.rows && w.rows[id].status == Pending {
            StepKeepsInv(w, ClaimJob(id));
            NewAttempt(w, id);
          } else {
            PassKeepsInv(w, due[1..], preflight);
          }
      }
    }
  }

  lemma NewAttempt(w: World, id: JobId)
    requires Inv(w) && id in w.rows
    ensures Claim(id, w.rows[id].attempts + 1) !in w.claims
  {
    assert RowAgrees(w, id);
  }

  class HookStore {
    var rows: map<JobId, Row>
    ghost var claims: set<Claim>
    ghost var started: set<Claim>
    ghost var issued: map<JobId, nat>
    ghost var requests: map<JobId, nat>
    ghost var starts: seq<Claim>

    ghost function View(): World
      reads this
    {
      World(rows, claims, started, issued, requests, starts)
    }

    // Sets the hook fields of one job inside the promotion or retry transaction.
    method QueuePromotionHook(row: Row, s: Settings) returns (queued: bool, after: Row)
      ensures queued == Queued(row, s).Some?
      ensures after == if queued then Queued(row, s).value else row
    {
      after, queued := row, false;
      if row.status != Unqueued || !row.promoted { return; }
      var kind := ChosenKind(row, s);
      var changed := row;
      match kind {
        case Copy =>
          if !s.copyEnabled { return; }
          if changed.destination.None? {
            var rule := MatchingRule(row.finalParent, s.rules);
            if rule.None? || row.contentPath.None? { return; }
            var source := row.contentPath.value;
            if !(rule.value.source < source) { return; }
            changed := changed.(destination := Some(rule.value.destination));
            changed := changed.(root := Some(rule.value.source), relative := Some(source[|rule.value.source|..]));
          }
          changed := changed.(script := None);
        case Script =>
          if !s.scriptEnabled || s.script.None? { return; }
          changed := changed.(script := s.script, destination := None, root := None, relative := None);
      }
      changed := changed.(status := Pending, kind := Some(kind));
      return true, changed;
    }

    method RetryHook(id: JobId, s: Settings) returns (ok: bool)
      modifies this`rows, this`requests
      ensures ok <==> id in old(rows) && Requeued(old(rows)[id], s).Some?
      ensures View() == Apply(old(View()), Retry(id, s))
    {
      hide Queued, ChosenKind;
      if id !in rows { return false; }
      var row := rows[id];
      if row.status != Failed && row.status != Interrupted { return false; }
      if row.kind == Some(Copy) {
        if !s.copyEnabled { return false; }
      } else if !s.scriptEnabled {
        return false;
      }
      row := row.(status := Unqueued);
      var queued, after := QueuePromotionHook(row, s);
      if !queued { return false; }
      rows := rows[id := after];
      requests := requests[id := Count(requests, id) + 1];
      return true;
    }

    method CancelPromotionCopy(id: JobId) returns (ok: bool)
      modifies this`rows
      ensures ok <==> id in old(rows) && MayCancel(old(rows)[id])
      ensures View() == Apply(old(View()), CancelCopy(id))
    {
      ok := id in rows && MayCancel(rows[id]);
      if ok { rows := rows[id := rows[id].(status := Cancelled)]; }
    }

    method RecoverInterrupted() returns (count: nat)
      modifies this`rows
      ensures View() == Apply(old(View()), Event.RecoverInterrupted)
      ensures count == |set id | id in old(rows) && old(rows)[id].status == Running|
    {
      var running := set id | id in rows && rows[id].status == Running;
      count := |running|;
      rows := map id | id in rows :: if id in running then rows[id].(status := Interrupted) else rows[id];
      assert rows == RecoverAll(old(rows));
    }

    // The claim is durable before anything is started.
    method ClaimNext(due: seq<JobId>, preflight: JobId -> Preflight) returns (claim: Option<Claim>)
      modifies this`rows, this`claims, this`issued
      ensures (View(), claim) == ClaimFrom(old(View()), due, preflight)
    {
      assert due[0..] == due;
      for n := 0 to |due|
        invariant ClaimFrom(View(), due[n..], preflight) == ClaimFrom(old(View()), due, preflight)
      {
        var id := due[n];
        assert due[n..][0] == id && due[n..][1..] == due[n + 1..];
        var check := preflight(id);
        if check == NotReady { continue; }
        if check == Broken {
          if id in rows && rows[id].status == Pending { rows := rows[id := rows[id].(status := Failed)]; }
          continue;
        }
        if id in rows && rows[id].status == Pending {
          var attempt := rows[id].attempts + 1;
          rows := rows[id := rows[id].(status := Running, attempts := attempt)];
          issued := issued[id := attempt];
          claims := claims + {Claim(id, attempt)};
          return Some(Claim(id, attempt));
        }
      }
      return None;
    }

    method FinishClaim(claim: Claim, status: Status) returns (recorded: bool)
      requires claim in claims || claim in started
      requires status == Succeeded || status == Failed || status == Interrupted
      modifies this`rows, this`claims, this`started
      ensures recorded <==> claim.job in old(rows) && old(rows)[claim.job].status == Running
                            && old(rows)[claim.job].attempts == claim.attempt
      ensures View() == Apply(old(View()), Finish(claim, status))
    {
      recorded := claim.job in rows && rows[claim.job].status == Running && rows[claim.job].attempts == claim.attempt;
      if recorded { rows := rows[claim.job := rows[claim.job].(status := status)]; }
      claims, started := claims - {claim}, started - {claim};
    }

    method DeleteJob(id: JobId) returns (ok: bool)
      modifies this`rows
      ensures ok <==> id in old(rows) && MayDelete(old(rows)[id])
      ensures View() == Apply(old(View()), Delete(id))
    {
      ok := id in rows && MayDelete(rows[id]);
      if ok { rows := rows - {id}; }
    }
  }
}
