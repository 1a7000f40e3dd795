// The routed copy of one promoted payload: many attempts of many jobs, each of which may crash after any
// step, among other programs that use the same destination.
module RoutedCopy {
  import opened Options

  // What a payload holds; two payloads are byte-for-byte identical when their data are equal.
  type Data = string

  type Inode = nat

  type JobId = nat

  // A payload is its identity and its contents, as a snapshot sees them.
  datatype Payload = Payload(inode: Inode, data: Data)

  datatype Record = Record(request: Data, source: Payload, destination: Payload)

  // Names in the private state directory of the job.
  datatype Kind = Request | Receipt | Previous | PendingLink
  datatype Name = Complete | InAttempt(attempt: nat, kind: Kind)

  // What one job sees: the payload's name is shared with other jobs and programs, the rest is its own.
  // `records` holds what each metadata file says, None for anything that is not a receipt;
  // `published` remembers every receipt that was ever reached through `complete.json`.
  datatype Target = Target(
    payload: Option<Payload>, staged: Option<Payload>, names: map<Name, Inode>, records: map<Inode, Option<Record>>,
    nextInode: nat, nextAttempt: nat, published: set<Inode>)

  // One request: the source, and what each write of rsync makes of what it finds under the name it was given.
  datatype Task = Task(request: Data, source: Payload, directory: bool, writes: seq<Data -> Data>, complete: bool)

  // `Copied` remembers the payload the attempt vouches for.
  datatype Outcome = Copied(seen: Payload) | Collision | Failed

  // `made` is the inode the attempt made, `watched` the one it found under the name when it took its identity.
  datatype Pc =
    | Look | Recheck(seen: Payload, matches: bool) | Begin(found: Option<Payload>)
    | NoteRequest(attempt: nat, found: Option<Payload>)
    | Reserve(attempt: nat) | Watch(attempt: nat, made: Inode) | Enter(attempt: nat, made: Inode, watched: Inode)
    | Fill(attempt: nat, made: Inode, watched: Inode, done: nat) | Check(attempt: nat, made: Inode, watched: Inode)
    | Publish(attempt: nat) | Unstage(attempt: nat) | LookAgain(attempt: nat)
    | Confirm(attempt: nat, seen: Payload)
    | WriteReceipt(attempt: nat, seen: Payload) | LinkFirst(attempt: nat, seen: Payload)
    | KeepPrevious(attempt: nat, seen: Payload) | LinkPending(attempt: nat, seen: Payload)
    | Replace(attempt: nat, seen: Payload)
    | Stopped(outcome: Outcome)

  predicate MatchesReceipt(t: Target, task: Task, seen: Payload) {
    Complete in t.names && t.names[Complete] in t.records
    && t.records[t.names[Complete]] == Some(Record(task.request, task.source, seen))
  }

  // A new metadata file under a new name.
  function WithFile(t: Target, name: Name, record: Option<Record>): Target {
    t.(names := t.names[name := t.nextInode], records := t.records[t.nextInode := record], nextInode := t.nextInode + 1)
  }

  // Another name for an existing file.
  function WithLink(t: Target, from: Name, name: Name): Target {
    if from in t.names then t.(names := t.names[name := t.names[from]]) else t
  }

  function Written(p: Option<Payload>, write: Data -> Data): Option<Payload> {
    if p.Some? then Some(p.value.(data := write(p.value.data))) else p
  }

  predicate Stands(t: Target, inode: Inode) { t.payload.Some? && t.payload.value.inode == inode }

  function Step(t: Target, pc: Pc, task: Task): (Target, Pc) {
    match pc
    case Look =>
      if t.payload.None? then (t, Begin(None))
      else
        var seen := t.payload.value;
        if MatchesReceipt(t, task, seen) || seen.data == task.source.data
        then (t, Recheck(seen, MatchesReceipt(t, task, seen)))
        else (t, Stopped(Collision))
    case Recheck(seen, matches) =>
      if t.payload != Some(seen) then (t, Stopped(Failed))
      else if matches then (t, Stopped(Copied(seen)))
      else (t, Begin(Some(seen)))
    case Begin(found) => (t.(nextAttempt := t.nextAttempt + 1), NoteRequest(t.nextAttempt, found))
    case NoteRequest(a, found) =>
      (WithFile(t, InAttempt(a, Request), None), if found.Some? then Confirm(a, found.value) else Reserve(a))
    case Reserve(a) =>
      var made := t.nextInode;
      if !task.directory then
        (t.(staged := Some(Payload(made, "")), nextInode := made + 1), Fill(a, made, made, 0))
      else if t.payload.Some? then (t, Stopped(Failed))
      else (t.(payload := Some(Payload(made, "")), nextInode := made + 1), Watch(a, made))
    case Watch(a, made) =>
      (t, if t.payload.Some? then Enter(a, made, t.payload.value.inode) else Stopped(Failed))
    case Enter(a, made, watched) => (t, if Stands(t, watched) then Fill(a, made, watched, 0) else Stopped(Failed))
    case Fill(a, made, watched, n) =>
      if n >= |task.writes| then (t, Check(a, made, watched))
      else if task.directory then
        (t.(payload := Written(t.payload, task.writes[n])), Fill(a, made, watched, n + 1))
      else (t.(staged := Written(t.staged, task.writes[n])), Fill(a, made, watched, n + 1))
    case Check(a, made, watched) =>
      if !task.complete then (t, Stopped(Failed))
      else if !task.directory then (t, Publish(a))
      else if Stands(t, watched) then (t, Confirm(a, t.payload.value))
      else (t, Stopped(Failed))
    case Publish(a) =>
      if t.payload.Some? then (t, Stopped(Failed)) else (t.(payload := t.staged), Unstage(a))
    case Unstage(a) => (t.(staged := None), LookAgain(a))
    case LookAgain(a) => (t, if t.payload.Some? then Confirm(a, t.payload.value) else Stopped(Failed))
    case Confirm(a, seen) => (t, if t.payload == Some(seen) then WriteReceipt(a, seen) else Stopped(Failed))
    case WriteReceipt(a, seen) =>
      (WithFile(t, InAttempt(a, Receipt), Some(Record(task.request, task.source, seen))),
       if Complete in t.names then KeepPrevious(a, seen) else LinkFirst(a, seen))
    case LinkFirst(a, seen) =>
      var t' := WithLink(t, InAttempt(a, Receipt), Complete);
      (t'.(published := Reached(t')), Stopped(Copied(seen)))
    case KeepPrevious(a, seen) => (WithLink(t, Complete, InAttempt(a, Previous)), LinkPending(a, seen))
    case LinkPending(a, seen) => (WithLink(t, InAttempt(a, Receipt), InAttempt(a, PendingLink)), Replace(a, seen))
    case Replace(a, seen) =>
      var t' := WithLink(t, InAttempt(a, PendingLink), Complete);
      var t'' := t'.(names := t'.names - {InAttempt(a, PendingLink)});
      (t''.(published := Reached(t'')), Stopped(Copied(seen)))
    case Stopped(_) => (t, pc)
  }

  function Reached(t: Target): set<Inode> {
    if Complete in t.names then t.published + {t.names[Complete]} else t.published
  }

  // What others may do between two steps of an attempt: create a payload under the free name, write into the
  // one that stands there, take it away, or create files of their own.
  datatype Meddling = Appear(data: Data) | Alter(data: Data) | Remove | MakeFiles(count: nat)

  function Meddle(t: Target, m: Meddling): Target {
    match m
    case Appear(data) =>
      if t.payload.Some? then t
      else t.(payload := Some(Payload(t.nextInode, data)), nextInode := t.nextInode + 1)
    case Alter(data) => t.(payload := Written(t.payload, _ => data))
    case Remove => t.(payload := None)
    case MakeFiles(count) => t.(nextInode := t.nextInode + count)
  }

  function MeddleAll(t: Target, ms: seq<Meddling>): Target {
    if ms == [] then t else Meddle(MeddleAll(t, ms[..|ms| - 1]), ms[|ms| - 1])
  }

  // An attempt that gets through `steps` steps before it ends or crashes; `others(n)` happens when n steps are left.
  function Continue(t: Target, pc: Pc, task: Task, others: nat -> seq<Meddling>, steps: nat): (Target, Pc)
    decreases steps
  {
    if steps == 0 then (t, pc)
    else
      var (t', pc') := Step(t, pc, task);
      Continue(MeddleAll(t', others(steps - 1)), pc', task, others, steps - 1)
  }

  // ---------- the program ----------

  class CopyTarget {
    var payload: Option<Payload>
    var staged: Option<Payload>
    var names: map<Name, Inode>
    var records: map<Inode, Option<Record>>
    var nextInode: nat
    var nextAttempt: nat
    ghost var published: set<Inode>

    ghost function View(): Target
      reads this
    {
      Target(payload, staged, names, records, nextInode, nextAttempt, published)
    }

    method WriteRecord(name: Name, record: Option<Record>)
      modifies this`names, this`records, this`nextInode
      ensures View() == WithFile(old(View()), name, record)
    {
      names := names[name := nextInode];
      records := records[nextInode := record];
      nextInode := nextInode + 1;
    }

    method Link(from: Name, name: Name)
      requires from in names
      modifies this`names
      ensures View() == WithLink(old(View()), from, name)
    {
      names := names[name := names[from]];
    }

    // What others do before the next step.
    method Disturb(ms: seq<Meddling>)
      modifies this`payload, this`nextInode
      ensures View() == MeddleAll(old(View()), ms)
    {
      assert ms[..0] == [];
      for n := 0 to |ms|
        invariant View() == MeddleAll(old(View()), ms[..n])
      {
        assert ms[..n + 1][..n] == ms[..n];
        match ms[n] {
          case Appear(data) =>
            if payload.None? {
              payload := Some(Payload(nextInode, data));
              nextInode := nextInode + 1;
            }
          case Alter(data) => if payload.Some? { payload := Some(payload.value.(data := data)); }
          case Remove => payload := None;
          case MakeFiles(count) => nextInode := nextInode + count;
        }
      }
      assert ms[..|ms|] == ms;
    }

    // A step was made; others have their turn.
    method Settle(ghost before: Target, ghost pc: Pc, ghost next: Pc, task: Task, others: nat -> seq<Meddling>,
                  left: nat)
      requires Step(before, pc, task) == (View(), next)
      modifies this`payload, this`nextInode
      ensures Continue(before, pc, task, others, left + 1) == Continue(View(), next, task, others, left)
      ensures names == old(names) && staged == old(staged) && nextAttempt == old(nextAttempt)
    {
      Next(before, pc, View(), next, task, others, left);
      Disturb(others(left));
    }

    // One attempt: an existing payload is accepted or refused as it stands, a missing one is copied
    // under a name that must still be free.
    method CopyRouted(task: Task, others: nat -> seq<Meddling>, allowed: nat)
      modifies this
      ensures View() == Continue(old(View()), Look, task, others, allowed).0
    {
      hide Continue, Step;
      Crashed(task, others);
      if allowed == 0 { return; }
      ghost var before := View();
      LookStep(before, task);
      if payload.None? {
        Settle(before, Look, Begin(None), task, others, allowed - 1);
        BeginAttempt(None, task, others, allowed - 1);
        return;
      }
      var seen := payload.value;
      var matches := Complete in names && names[Complete] in records
          && records[names[Complete]] == Some(Record(task.request, task.source, seen));
      if !matches && seen.data != task.source.data {
        Settle(before, Look, Stopped(Collision), task, others, allowed - 1);
        Finish(Collision, task, others, allowed - 1);
        return;
      }
      Settle(before, Look, Recheck(seen, matches), task, others, allowed - 1);
      if allowed == 1 { return; }
      before := View();
      RecheckStep(before, seen, matches, task);
      if payload != Some(seen) {
        Settle(before, Recheck(seen, matches), Stopped(Failed), task, others, allowed - 2);
        Finish(Failed, task, others, allowed - 2);
      } else if matches {
        Settle(before, Recheck(seen, matches), Stopped(Copied(seen)), task, others, allowed - 2);
        Finish(Copied(seen), task, others, allowed - 2);
      } else {
        Settle(before, Recheck(seen, matches), Begin(Some(seen)), task, others, allowed - 2);
        BeginAttempt(Some(seen), task, others, allowed - 2);
      }
    }

    // The attempt is over; what follows is the work of others.
    method Finish(outcome: Outcome, task: Task, others: nat -> seq<Meddling>, allowed: nat)
      modifies this`payload, this`nextInode
      ensures View() == Continue(old(View()), Stopped(outcome), task, others, allowed).0
    {
      hide Continue;
      Crashed(task, others);
      var left := allowed;
      while left > 0
        invariant Continue(old(View()), Stopped(outcome), task, others, allowed)
               == Continue(View(), Stopped(outcome), task, others, left)
      {
        left := left - 1;
        Settle(View(), Stopped(outcome), Stopped(outcome), task, others, left);
      }
    }

    method BeginAttempt(found: Option<Payload>, task: Task, others: nat -> seq<Meddling>, allowed: nat)
      modifies this
      ensures View() == Continue(old(View()), Begin(found), task, others, allowed).0
    {
      hide Continue;
      Crashed(task, others);
      if allowed == 0 { return; }
      ghost var before := View();
      var attempt := nextAttempt;
      nextAttempt := nextAttempt + 1;
      Settle(before, Begin(found), NoteRequest(attempt, found), task, others, allowed - 1);
      if allowed == 1 { return; }
      before := View();
      WriteRecord(InAttempt(attempt, Request), None);
      if found.Some? {
        Settle(before, NoteRequest(attempt, found), Confirm(attempt, found.value), task, others, allowed - 2);
        PublishConfirmed(attempt, found.value, task, others, allowed - 2);
      } else {
        Settle(before, NoteRequest(attempt, found), Reserve(attempt), task, others, allowed - 2);
        if task.directory {
          CopyDirectory(attempt, task, others, allowed - 2);
        } else {
          CopyFile(attempt, task, others, allowed - 2);
        }
      }
    }

    // Creates the directory, which must not exist, and lets rsync write into what stands under its name.
    method CopyDirectory(attempt: nat, task: Task, others: nat -> seq<Meddling>, allowed: nat)
      requires task.directory
      modifies this
      ensures View() == Continue(old(View()), Reserve(attempt), task, others, allowed).0
    {
      hide Continue;
      Crashed(task, others);
      if allowed == 0 { return; }
      var left: nat := allowed - 1;
      ghost var before := View();
      if payload.Some? {
        Settle(before, Reserve(attempt), Stopped(Failed), task, others, left);
        Finish(Failed, task, others, left);
        return;
      }
      var made := nextInode;
      payload := Some(Payload(made, ""));
      nextInode := nextInode + 1;
      Settle(before, Reserve(attempt), Watch(attempt, made), task, others, left);
      FillDirectory(attempt, made, task, others, left);
    }

    // Takes the identity of what stands under the name, checks it, fills it, and checks it again.
    method FillDirectory(attempt: nat, made: Inode, task: Task, others: nat -> seq<Meddling>, allowed: nat)
      requires task.directory
      modifies this
      ensures View() == Continue(old(View()), Watch(attempt, made), task, others, allowed).0
    {
      hide Continue;
      Crashed(task, others);
      if allowed == 0 { return; }
      var left: nat := allowed - 1;
      if payload.None? {
        Settle(View(), Watch(attempt, made), Stopped(Failed), task, others, left);
        Finish(Failed, task, others, left);
        return;
      }
      var watched := payload.value.inode;
      Settle(View(), Watch(attempt, made), Enter(attempt, made, watched), task, others, left);
      if left == 0 { return; }
      left := left - 1;
      if payload.None? || payload.value.inode != watched {
        Settle(View(), Enter(attempt, made, watched), Stopped(Failed), task, others, left);
        Finish(Failed, task, others, left);
        return;
      }
      Settle(View(), Enter(attempt, made, watched), Fill(attempt, made, watched, 0), task, others, left);
      for n := 0 to |task.writes|
        invariant Continue(old(View()), Watch(attempt, made), task, others, allowed)
               == Continue(View(), Fill(attempt, made, watched, n), task, others, left)
      {
        if left == 0 { return; }
        ghost var before := View();
        if payload.Some? { payload := Some(payload.value.(data := task.writes[n](payload.value.data))); }
        left := left - 1;
        Settle(before, Fill(attempt, made, watched, n), Fill(attempt, made, watched, n + 1), task, others, left);
      }
      if left == 0 { return; }
      left := left - 1;
      Settle(View(), Fill(attempt, made, watched, |task.writes|), Check(attempt, made, watched), task, others, left);
      if left == 0 { return; }
      left := left - 1;
      if !task.complete || payload.None? || payload.value.inode != watched {
        Settle(View(), Check(attempt, made, watched), Stopped(Failed), task, others, left);
        Finish(Failed, task, others, left);
        return;
      }
      var seen := payload.value;
      Settle(View(), Check(attempt, made, watched), Confirm(attempt, seen), task, others, left);
      PublishConfirmed(attempt, seen, task, others, left);
    }

    // Lets rsync write a private file, then links it under the payload's name, which must be free.
    method CopyFile(attempt: nat, task: Task, others: nat -> seq<Meddling>, allowed: nat)
      requires !task.directory
      modifies this
      ensures View() == Continue(old(View()), Reserve(attempt), task, others, allowed).0
    {
      hide Continue;
      Crashed(task, others);
      if allowed == 0 { return; }
      var left: nat := allowed - 1;
      ghost var before := View();
      var made := nextInode;
      staged := Some(Payload(made, ""));
      nextInode := nextInode + 1;
      Settle(before, Reserve(attempt), Fill(attempt, made, made, 0), task, others, left);
      for n := 0 to |task.writes|
        invariant Continue(old(View()), Reserve(attempt), task, others, allowed)
               == Continue(View(), Fill(attempt, made, made, n), task, others, left)
        invariant staged.Some?
      {
        if left == 0 { return; }
        before := View();
        staged := Some(staged.value.(data := task.writes[n](staged.value.data)));
        left := left - 1;
        Settle(before, Fill(attempt, made, made, n), Fill(attempt, made, made, n + 1), task, others, left);
      }
      if left == 0 { return; }
      left := left - 1;
      Settle(View(), Fill(attempt, made, made, |task.writes|), Check(attempt, made, made), task, others, left);
      if left == 0 { return; }
      left := left - 1;
      if !task.complete {
        Settle(View(), Check(attempt, made, made), Stopped(Failed), task, others, left);
        Finish(Failed, task, others, left);
        return;
      }
      Settle(View(), Check(attempt, made, made), Publish(attempt), task, others, left);
      PublishFile(attempt, task, others, left);
    }

    method PublishFile(attempt: nat, task: Task, others: nat -> seq<Meddling>, allowed: nat)
      modifies this
      ensures View() == Continue(old(View()), Publish(attempt), task, others, allowed).0
    {
      hide Continue;
      Crashed(task, others);
      if allowed == 0 { return; }
      ghost var before := View();
      if payload.Some? {
        Settle(before, Publish(attempt), Stopped(Failed), task, others, allowed - 1);
        Finish(Failed, task, others, allowed - 1);
        return;
      }
      payload := staged;
      Settle(before, Publish(attempt), Unstage(attempt), task, others, allowed - 1);
      if allowed == 1 { return; }
      before := View();
      staged := None;
      Settle(before, Unstage(attempt), LookAgain(attempt), task, others, allowed - 2);
      if allowed == 2 { return; }
      if payload.None? {
        Settle(View(), LookAgain(attempt), Stopped(Failed), task, others, allowed - 3);
        Finish(Failed, task, others, allowed - 3);
        return;
      }
      var seen := payload.value;
      Settle(View(), LookAgain(attempt), Confirm(attempt, seen), task, others, allowed - 3);
      PublishConfirmed(attempt, seen, task, others, allowed - 3);
    }

    // Vouches only for a payload that still stands as it was seen.
    method PublishConfirmed(attempt: nat, seen: Payload, task: Task, others: nat -> seq<Meddling>, allowed: nat)
      modifies this
      ensures View() == Continue(old(View()), Confirm(attempt, seen), task, others, allowed).0
    {
      hide Continue;
      Crashed(task, others);
      if allowed == 0 { return; }
      if payload != Some(seen) {
        Settle(View(), Confirm(attempt, seen), Stopped(Failed), task, others, allowed - 1);
        Finish(Failed, task, others, allowed - 1);
      } else {
        Settle(View(), Confirm(attempt, seen), WriteReceipt(attempt, seen), task, others, allowed - 1);
        PublishRoutedRecord(attempt, seen, task, others, allowed - 1);
      }
    }

    // Publishes the receipt of an attempt.
    method PublishRoutedRecord(attempt: nat, seen: Payload, task: Task, others: nat -> seq<Meddling>, allowed: nat)
      modifies this
      ensures View() == Continue(old(View()), WriteReceipt(attempt, seen), task, others, allowed).0
    {
      hide Continue;
      Crashed(task, others);
      if allowed == 0 { return; }
      ghost var before := View();
      var first := Complete !in names;
      WriteRecord(InAttempt(attempt, Receipt), Some(Record(task.request, task.source, seen)));
      if first {
        Settle(before, WriteReceipt(attempt, seen), LinkFirst(attempt, seen), task, others, allowed - 1);
        LinkReceipt(attempt, seen, task, others, allowed - 1);
      } else {
        Settle(before, WriteReceipt(attempt, seen), KeepPrevious(attempt, seen), task, others, allowed - 1);
        Supersede(attempt, seen, task, others, allowed - 1);
      }
    }

    method LinkReceipt(attempt: nat, seen: Payload, task: Task, others: nat -> seq<Meddling>, allowed: nat)
      requires InAttempt(attempt, Receipt) in names
      modifies this
      ensures View() == Continue(old(View()), LinkFirst(attempt, seen), task, others, allowed).0
    {
      hide Continue, WithLink;
      Crashed(task, others);
      if allowed == 0 { return; }
      ghost var before := View();
      Link(InAttempt(attempt, Receipt), Complete);
      published := Reached(View());
      Settle(before, LinkFirst(attempt, seen), Stopped(Copied(seen)), task, others, allowed - 1);
      Finish(Copied(seen), task, others, allowed - 1);
    }

    // Replaces the published receipt; the old one keeps a name in the attempt.
    method Supersede(attempt: nat, seen: Payload, task: Task, others: nat -> seq<Meddling>, allowed: nat)
      requires Complete in names && InAttempt(attempt, Receipt) in names
      modifies this
      ensures View() == Continue(old(View()), KeepPrevious(attempt, seen), task, others, allowed).0
    {
      hide Continue, Step, WithLink;
      Crashed(task, others);
      if allowed == 0 { return; }
      ghost var before := View();
      LinkNamed(before, Complete, InAttempt(attempt, Previous));
      Link(Complete, InAttempt(attempt, Previous));
      KeepStep(before, attempt, seen, task);
      Settle(before, KeepPrevious(attempt, seen), LinkPending(attempt, seen), task, others, allowed - 1);
      ReplaceReceipt(attempt, seen, task, others, allowed - 1);
    }

    method ReplaceReceipt(attempt: nat, seen: Payload, task: Task, others: nat -> seq<Meddling>, allowed: nat)
      requires InAttempt(attempt, Receipt) in names
      modifies this
      ensures View() == Continue(old(View()), LinkPending(attempt, seen), task, others, allowed).0
    {
      hide Continue, Step, WithLink;
      Crashed(task, others);
      if allowed == 0 { return; }
      ghost var before := View();
      LinkNamed(before, InAttempt(attempt, Receipt), InAttempt(attempt, PendingLink));
      Link(InAttempt(attempt, Receipt), InAttempt(attempt, PendingLink));
      PendingStep(before, attempt, seen, task);
      Settle(before, LinkPending(attempt, seen), Replace(attempt, seen), task, others, allowed - 1);
      if allowed == 1 { return; }
      before := View();
      Link(InAttempt(attempt, PendingLink), Complete);
      names := names - {InAttempt(attempt, PendingLink)};
      published := Reached(View());
      ReplaceStep(before, attempt, seen, task);
      Settle(before, Replace(attempt, seen), Stopped(Copied(seen)), task, others, allowed - 2);
      Finish(Copied(seen), task, others, allowed - 2);
    }
  }

  lemma LookStep(t: Target, task: Task)
    ensures t.payload.None? ==> Step(t, Look, task) == (t, Begin(None))
    ensures t.payload.Some? ==>
              var seen := t.payload.value;
              var matches := MatchesReceipt(t, task, seen);
              Step(t, Look, task)
              == (t, if matches || seen.data == task.source.data then Recheck(seen, matches) else Stopped(Collision))
  {}

  lemma RecheckStep(t: Target, seen: Payload, matches: bool, task: Task)
    ensures Step(t, Recheck(seen, matches), task)
         == (t, if t.payload != Some(seen) then Stopped(Failed)
                else if matches then Stopped(Copied(seen))
                else Begin(Some(seen)))
  {}

  lemma KeepStep(t: Target, a: nat, seen: Payload, task: Task)
    ensures Step(t, KeepPrevious(a, seen), task)
         == (WithLink(t, Complete, InAttempt(a, Previous)), LinkPending(a, seen))
  {}

  lemma PendingStep(t: Target, a: nat, seen: Payload, task: Task)
    ensures Step(t, LinkPending(a, seen), task)
         == (WithLink(t, InAttempt(a, Receipt), InAttempt(a, PendingLink)), Replace(a, seen))
  {}

  lemma ReplaceStep(t: Target, a: nat, seen: Payload, task: Task)
    ensures var t' := WithLink(t, InAttempt(a, PendingLink), Complete);
            var t'' := t'.(names := t'.names - {InAttempt(a, PendingLink)});
            Step(t, Replace(a, seen), task) == (t''.(published := Reached(t'')), Stopped(Copied(seen)))
  {}

  lemma Next(t: Target, pc: Pc, t': Target, pc': Pc, task: Task, others: nat -> seq<Meddling>, left: nat)
    requires Step(t, pc, task) == (t', pc')
    ensures Continue(t, pc, task, others, left + 1) == Continue(MeddleAll(t', others(left)), pc', task, others, left)
  {}

  lemma Crashed(task: Task, others: nat -> seq<Meddling>)
    ensures forall t, pc :: Continue(t, pc, task, others, 0) == (t, pc)
  {}

  lemma LinkNamed(t: Target, from: Name, name: Name)
    requires from in t.names
    ensures WithLink(t, from, name).names.Keys == t.names.Keys + {name}
  {}
}
