// How an attempt of a routed copy ends when nobody disturbs it.
module CopyOutcome {
  import opened Options
  import opened RoutedCopy

  function Nobody(n: nat): seq<Meddling> { [] }

  // Where an attempt gets to by itself in so many steps.
  function Alone(t: Target, pc: Pc, task: Task, steps: nat): (Target, Pc) { Continue(t, pc, task, Nobody, steps) }

  lemma OneStep(t: Target, pc: Pc, task: Task, steps: nat)
    requires steps > 0
    ensures Alone(t, pc, task, steps) == Alone(Step(t, pc, task).0, Step(t, pc, task).1, task, steps - 1)
  {
    hide Step;
    assert MeddleAll(Step(t, pc, task).0, []) == Step(t, pc, task).0;
  }

  lemma {:induction false} StoppedStays(t: Target, outcome: Outcome, task: Task, steps: nat)
    ensures Alone(t, Stopped(outcome), task, steps) == (t, Stopped(outcome))
  {
    if steps > 0 {
      OneStep(t, Stopped(outcome), task, steps);
      StoppedStays(t, outcome, task, steps - 1);
    }
  }

  // What all writes from the n-th on make of some data.
  function Rest(data: Data, writes: seq<Data -> Data>, n: nat): Data
    requires n <= |writes|
    decreases |writes| - n
  {
    if n == |writes| then data else Rest(writes[n](data), writes, n + 1)
  }

  // The receipt of this attempt is published, and the payload stands.
  predicate Vouched(t: Target, task: Task, seen: Payload) {
    t.payload == Some(seen) && MatchesReceipt(t, task, seen)
  }

  lemma ReceiptPublished(t: Target, a: nat, seen: Payload, task: Task, steps: nat)
    requires t.payload == Some(seen) && steps >= 5
    ensures var (t', pc) := Alone(t, Confirm(a, seen), task, steps);
            pc == Stopped(Copied(seen)) && Vouched(t', task, seen)
  {
    hide Alone;
    OneStep(t, Confirm(a, seen), task, steps);
    var t1, pc1 := t, WriteReceipt(a, seen);
    OneStep(t1, pc1, task, steps - 1);
    var (t2, pc2) := Step(t1, pc1, task);
    ReceiptLinked(t2, pc2, a, seen, task, steps - 2);
  }

  lemma ReceiptLinked(t: Target, pc: Pc, a: nat, seen: Payload, task: Task, steps: nat)
    requires steps >= 3 && t.payload == Some(seen)
    requires InAttempt(a, Receipt) in t.names && t.names[InAttempt(a, Receipt)] in t.records
    requires t.records[t.names[InAttempt(a, Receipt)]] == Some(Record(task.request, task.source, seen))
    requires pc == if Complete in t.names then KeepPrevious(a, seen) else LinkFirst(a, seen)
    ensures var (t', pc') := Alone(t, pc, task, steps);
            pc' == Stopped(Copied(seen)) && Vouched(t', task, seen)
  {
    hide Alone;
    OneStep(t, pc, task, steps);
    var (t1, pc1) := Step(t, pc, task);
    if Complete in t.names {
      OneStep(t1, pc1, task, steps - 1);
      var (t2, pc2) := Step(t1, pc1, task);
      OneStep(t2, pc2, task, steps - 2);
      var (t3, pc3) := Step(t2, pc2, task);
      StoppedStays(t3, Copied(seen), task, steps - 3);
    } else {
      StoppedStays(t1, Copied(seen), task, steps - 1);
    }
  }

  lemma {:induction false} FilledDirectory(t: Target, a: nat, made: Inode, n: nat, task: Task, steps: nat)
    requires task.directory && t.payload.Some? && t.payload.value.inode == made && n <= |task.writes|
    requires steps >= |task.writes| - n + 7
    ensures var (t', pc) := Alone(t, Fill(a, made, made, n), task, steps);
            var p := Payload(made, Rest(t.payload.value.data, task.writes, n));
            if task.complete then pc == Stopped(Copied(p)) && Vouched(t', task, p) else pc == Stopped(Failed)
    decreases |task.writes| - n
  {
    hide Alone, Vouched;
    OneStep(t, Fill(a, made, made, n), task, steps);
    if n < |task.writes| {
      var t1 := t.(payload := Some(Payload(made, task.writes[n](t.payload.value.data))));
      FilledDirectory(t1, a, made, n + 1, task, steps - 1);
    } else {
      OneStep(t, Check(a, made, made), task, steps - 1);
      if task.complete {
        ReceiptPublished(t, a, t.payload.value, task, steps - 2);
      } else {
        StoppedStays(t, Failed, task, steps - 2);
      }
    }
  }

  lemma {:induction false} FilledFile(t: Target, a: nat, made: Inode, n: nat, task: Task, steps: nat)
    requires !task.directory && t.payload.None? && t.staged.Some? && t.staged.value.inode == made
    requires n <= |task.writes| && steps >= |task.writes| - n + 10
    ensures var (t', pc) := Alone(t, Fill(a, made, made, n), task, steps);
            var p := Payload(made, Rest(t.staged.value.data, task.writes, n));
            if task.complete then pc == Stopped(Copied(p)) && Vouched(t', task, p)
            else pc == Stopped(Failed) && t'.payload.None?
    decreases |task.writes| - n
  {
    hide Alone, Vouched;
    OneStep(t, Fill(a, made, made, n), task, steps);
    if n < |task.writes| {
      var t1 := t.(staged := Some(Payload(made, task.writes[n](t.staged.value.data))));
      FilledFile(t1, a, made, n + 1, task, steps - 1);
    } else {
      OneStep(t, Check(a, made, made), task, steps - 1);
      if task.complete {
        OneStep(t, Publish(a), task, steps - 2);
        var t1 := t.(payload := t.staged);
        OneStep(t1, Unstage(a), task, steps - 3);
        var t2 := t1.(staged := None);
        OneStep(t2, LookAgain(a), task, steps - 4);
        ReceiptPublished(t2, a, t.staged.value, task, steps - 5);
      } else {
        StoppedStays(t, Failed, task, steps - 2);
      }
    }
  }

  // Left alone, an attempt ends as it should.  A payload with a matching receipt is acknowledged as it is; one with
  // the contents of the source gets a receipt; any other one is a collision and stays untouched.  Without a payload
  // it is copied exactly when rsync completes: it is then what rsync wrote, and its receipt is published.
  lemma UndisturbedAttempt(t: Target, task: Task, steps: nat)
    requires steps >= |task.writes| + 16
    ensures var (t', pc) := Alone(t, Look, task, steps);
            match t.payload
            case Some(p) =>
              if MatchesReceipt(t, task, p) then t' == t && pc == Stopped(Copied(p))
              else if p.data == task.source.data then pc == Stopped(Copied(p)) && Vouched(t', task, p)
              else t' == t && pc == Stopped(Collision)
            case None =>
              if task.complete then
                pc.Stopped? && pc.outcome.Copied? && pc.outcome.seen.data == Rest("", task.writes, 0)
                && Vouched(t', task, pc.outcome.seen)
              else pc == Stopped(Failed)
  {
    hide Alone, Vouched, MatchesReceipt;
    OneStep(t, Look, task, steps);
    if t.payload.Some? {
      PayloadStands(t, task, steps);
    } else {
      OneStep(t, Begin(None), task, steps - 1);
      var t1 := t.(nextAttempt := t.nextAttempt + 1);
      OneStep(t1, NoteRequest(t.nextAttempt, None), task, steps - 2);
      var t2 := WithFile(t1, InAttempt(t.nextAttempt, Request), None);
      NewPayload(t2, t.nextAttempt, task, steps - 3);
    }
  }

  lemma PayloadStands(t: Target, task: Task, steps: nat)
    requires steps >= 12 && t.payload.Some?
    ensures var (t', pc), p := Alone(t, Step(t, Look, task).1, task, steps - 1), t.payload.value;
            if MatchesReceipt(t, task, p) then t' == t && pc == Stopped(Copied(p))
            else if p.data == task.source.data then pc == Stopped(Copied(p)) && Vouched(t', task, p)
            else t' == t && pc == Stopped(Collision)
  {
    hide Alone, Vouched, MatchesReceipt;
    var p := t.payload.value;
    if MatchesReceipt(t, task, p) {
      OneStep(t, Recheck(p, true), task, steps - 1);
      StoppedStays(t, Copied(p), task, steps - 2);
    } else if p.data == task.source.data {
      OneStep(t, Recheck(p, false), task, steps - 1);
      OneStep(t, Begin(Some(p)), task, steps - 2);
      var t1 := t.(nextAttempt := t.nextAttempt + 1);
      OneStep(t1, NoteRequest(t.nextAttempt, Some(p)), task, steps - 3);
      ReceiptPublished(WithFile(t1, InAttempt(t.nextAttempt, Request), None), t.nextAttempt, p, task, steps - 4);
    } else {
      StoppedStays(t, Collision, task, steps - 1);
    }
  }

  lemma NewPayload(t: Target, a: nat, task: Task, steps: nat)
    requires t.payload.None? && steps >= |task.writes| + 13
    ensures var (t', pc) := Alone(t, Reserve(a), task, steps);
            if task.complete then
              pc.Stopped? && pc.outcome.Copied? && pc.outcome.seen.data == Rest("", task.writes, 0)
              && Vouched(t', task, pc.outcome.seen)
            else pc == Stopped(Failed)
  {
    hide Alone, Vouched;
    var made := t.nextInode;
    OneStep(t, Reserve(a), task, steps);
    var (t1, pc1) := Step(t, Reserve(a), task);
    if task.directory {
      OneStep(t1, Watch(a, made), task, steps - 1);
      OneStep(t1, Enter(a, made, made), task, steps - 2);
      FilledDirectory(t1, a, made, 0, task, steps - 3);
    } else {
      FilledFile(t1, a, made, 0, task, steps - 1);
    }
  }
}
