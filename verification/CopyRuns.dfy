// Runs of the routed copy: any number of jobs and other programs share the name of one payload, attempts are
// interleaved step by step, and each of them may crash anywhere.
module CopyRuns {
  import opened Options
  import opened RoutedCopy

  // What belongs to one job, and where its attempt stands.  `robbed` tells whether somebody took a payload away
  // since the attempt started.
  datatype Job = Job(
    staged: Option<Payload>, names: map<Name, Inode>, records: map<Inode, Option<Record>>, nextAttempt: nat,
    published: set<Inode>, pc: Pc, task: Task, robbed: bool)

  // `makers` remembers which attempt of which job made an inode for its payload; other programs are not in it.
  datatype World = World(
    payload: Option<Payload>, nextInode: nat, makers: map<Inode, (JobId, nat)>, jobs: map<JobId, Job>)

  datatype Event = Start(j: JobId, task: Task) | Go(j: JobId) | Crash(j: JobId) | Other(m: Meddling)

  function Seen(w: World, j: JobId): Target
    requires j in w.jobs
  {
    var job := w.jobs[j];
    Target(w.payload, job.staged, job.names, job.records, w.nextInode, job.nextAttempt, job.published)
  }

  // The steps before an attempt makes its inode, and those at which it has one of its own under way.
  predicate Before(pc: Pc) { pc.NoteRequest? || pc.Reserve? }

  predicate Making(pc: Pc) { pc.Watch? || pc.Enter? || pc.Fill? }

  function Put(w: World, j: JobId, t: Target, pc: Pc): World
    requires j in w.jobs
  {
    var job := w.jobs[j].(staged := t.staged, names := t.names, records := t.records, nextAttempt := t.nextAttempt,
                          published := t.published, pc := pc);
    World(t.payload, t.nextInode,
          if w.jobs[j].pc.Reserve? && Making(pc) then w.makers[w.nextInode := (j, w.jobs[j].pc.attempt)] else w.makers,
          w.jobs[j := job])
  }

  function Robbed(jobs: map<JobId, Job>): map<JobId, Job> {
    map j | j in jobs :: jobs[j].(robbed := true)
  }

  // What stands under the shared name, and the next free inode, for somebody without files of his own.
  function Outside(w: World): Target { Target(w.payload, None, map[], map[], w.nextInode, 0, {}) }

  function Apply(w: World, e: Event): World {
    match e
    case Start(j, task) =>
      if j in w.jobs && w.jobs[j].pc.Stopped?
      then w.(jobs := w.jobs[j := w.jobs[j].(pc := Look, task := task, robbed := false)]) else w
    case Go(j) =>
      if j in w.jobs then
        var (t, pc) := Step(Seen(w, j), w.jobs[j].pc, w.jobs[j].task);
        Put(w, j, t, pc)
      else w
    case Crash(j) => if j in w.jobs then w.(jobs := w.jobs[j := w.jobs[j].(pc := Stopped(Failed))]) else w
    case Other(m) =>
      var t := Meddle(Outside(w), m);
      w.(payload := t.payload, nextInode := t.nextInode, jobs := if m.Remove? then Robbed(w.jobs) else w.jobs)
  }

  function After(w: World, es: seq<Event>): World {
    if es == [] then w else Apply(After(w, es[..|es| - 1]), es[|es| - 1])
  }

  // No job has done anything yet; the payload may stand there already.
  ghost predicate Initial(w: World) {
    (w.payload.Some? ==> w.payload.value.inode < w.nextInode) && w.makers == map[]
    && forall j <- w.jobs ::
         var job := w.jobs[j];
         job.staged.None? && job.names == map[] && job.records == map[] && job.published == {} && job.pc.Stopped?
         && !job.pc.outcome.Copied? && !job.robbed
  }

  // ---------- an attempt of the program is part of such a run ----------

  function Turns(ms: seq<Meddling>): seq<Event> { seq(|ms|, n requires 0 <= n < |ms| => Other(ms[n])) }

  function EventsOf(j: JobId, others: nat -> seq<Meddling>, steps: nat): seq<Event> {
    if steps == 0 then [] else [Go(j)] + Turns(others(steps - 1)) + EventsOf(j, others, steps - 1)
  }

  lemma {:induction false} AfterConcat(w: World, a: seq<Event>, b: seq<Event>)
    ensures After(w, a + b) == After(After(w, a), b)
  {
    if b == [] {
      assert a + b == a;
    } else {
      assert (a + b)[..|a + b| - 1] == a + b[..|b| - 1];
      AfterConcat(w, a, b[..|b| - 1]);
    }
  }

  lemma GoSeen(w: World, j: JobId)
    requires j in w.jobs
    ensures var w' := Apply(w, Go(j));
            j in w'.jobs && (Seen(w', j), w'.jobs[j].pc) == Step(Seen(w, j), w.jobs[j].pc, w.jobs[j].task)
            && w'.jobs[j].task == w.jobs[j].task
  {
    hide Step;
  }

  lemma MeddlingSeen(w: World, j: JobId, m: Meddling)
    requires j in w.jobs
    ensures var w' := Apply(w, Other(m));
            j in w'.jobs && Seen(w', j) == Meddle(Seen(w, j), m)
            && w'.jobs[j].pc == w.jobs[j].pc && w'.jobs[j].task == w.jobs[j].task
  {
    hide Step;
  }

  lemma {:induction false} TurnsMeddle(w: World, j: JobId, ms: seq<Meddling>)
    requires j in w.jobs
    ensures var w' := After(w, Turns(ms));
            j in w'.jobs && Seen(w', j) == MeddleAll(Seen(w, j), ms)
            && w'.jobs[j].pc == w.jobs[j].pc && w'.jobs[j].task == w.jobs[j].task
  {
    hide Apply, Meddle, Seen;
    if ms != [] {
      assert Turns(ms)[..|Turns(ms)| - 1] == Turns(ms[..|ms| - 1]);
      TurnsMeddle(w, j, ms[..|ms| - 1]);
      MeddlingSeen(After(w, Turns(ms[..|ms| - 1])), j, ms[|ms| - 1]);
    }
  }

  lemma NoEvents(w: World)
    ensures After(w, []) == w
  {}

  lemma AfterOne(w: World, e: Event)
    ensures After(w, [e]) == Apply(w, e)
  {
    hide Apply;
    assert [e][..0] == [];
  }

  // What an attempt of the program does, cut short anywhere, is what these events do.
  lemma {:induction false} AttemptIsRun(w: World, j: JobId, others: nat -> seq<Meddling>, steps: nat)
    requires j in w.jobs
    ensures var w' := After(w, EventsOf(j, others, steps));
            j in w'.jobs
            && (Seen(w', j), w'.jobs[j].pc) == Continue(Seen(w, j), w.jobs[j].pc, w.jobs[j].task, others, steps)
    decreases steps
  {
    hide Step, Apply, Seen, MeddleAll, After, Turns;
    if steps == 0 {
      NoEvents(w);
    } else {
      var ms, rest := others(steps - 1), EventsOf(j, others, steps - 1);
      var w1 := Apply(w, Go(j));
      GoSeen(w, j);
      AfterOne(w, Go(j));
      TurnsMeddle(w1, j, ms);
      AttemptIsRun(After(w1, Turns(ms)), j, others, steps - 1);
      AfterConcat(w, [Go(j)], Turns(ms));
      AfterConcat(w, [Go(j)] + Turns(ms), rest);
    }
  }

  // ---------- who touches a payload ----------

  predicate Filling(job: Job) { job.task.directory && Making(job.pc) }

  // The running attempt made the inode.
  predicate MadeBy(w: World, j: JobId, inode: Inode)
    requires j in w.jobs
  {
    Making(w.jobs[j].pc) && inode in w.makers && w.makers[inode] == (j, w.jobs[j].pc.attempt)
  }

  // An attempt makes one inode; while nobody takes a payload away, rsync finds the directory of that inode under
  // the shared name.
  predicate FillsOwn(w: World, j: JobId)
    requires j in w.jobs
  {
    var job := w.jobs[j];
    (job.pc.Watch? || job.pc.Enter? ==> job.task.directory)
    && (forall i <- w.makers :: w.makers[i].0 == j ==> w.makers[i].1 < job.nextAttempt)
    && (Before(job.pc) ==>
          job.pc.attempt < job.nextAttempt && forall i <- w.makers :: w.makers[i] != (j, job.pc.attempt))
    && (Making(job.pc) ==>
          job.pc.made in w.makers
          && forall i <- w.makers :: w.makers[i] == (j, job.pc.attempt) <==> i == job.pc.made)
    && (Filling(job) && !job.robbed ==>
          w.payload.Some? && w.payload.value.inode == job.pc.made && (!job.pc.Watch? ==> job.pc.watched == job.pc.made))
  }

  predicate Fresh(w: World) {
    (w.payload.Some? ==> w.payload.value.inode < w.nextInode) && (forall i <- w.makers :: i < w.nextInode)
    && forall j <- w.jobs :: w.jobs[j].staged.Some? ==> w.jobs[j].staged.value.inode < w.nextInode
  }

  predicate Inv(w: World) { Fresh(w) && forall j <- w.jobs :: FillsOwn(w, j) }

  // The only way in which a step of an attempt touches a payload that stands there.
  lemma StepTouches(t: Target, pc: Pc, task: Task)
    requires t.payload.Some?
    ensures var t' := Step(t, pc, task).0;
            if pc.Fill? && task.directory && pc.done < |task.writes| then
              t'.payload == Some(t.payload.value.(data := task.writes[pc.done](t.payload.value.data)))
            else t'.payload == t.payload
  {}

  // An attempt comes to fill a directory only by making it, and then taking the identity of what stands there.
  lemma StepFills(t: Target, pc: Pc, task: Task)
    requires pc.Watch? || pc.Enter? ==> task.directory
    ensures var (t', pc') := Step(t, pc, task);
            (pc'.Watch? || pc'.Enter? ==> task.directory)
            && (Making(pc') && !Making(pc) ==>
                  pc.Reserve? && pc'.attempt == pc.attempt && pc'.made == t.nextInode && t'.nextInode > t.nextInode
                  && (task.directory ==>
                        t.payload.None? && pc'.Watch? && t'.payload == Some(Payload(t.nextInode, ""))))
            && (Making(pc') && Making(pc) ==>
                  pc'.made == pc.made && pc'.attempt == pc.attempt && !pc'.Watch?
                  && (pc.Watch? ==> t.payload.Some? && pc'.watched == t.payload.value.inode)
                  && (!pc.Watch? ==> pc'.watched == pc.watched))
            && (pc.Reserve? && pc' != Stopped(Failed) ==> Making(pc'))
  {}

  lemma StepNumbers(t: Target, pc: Pc, task: Task)
    ensures var (t', pc') := Step(t, pc, task);
            t'.nextAttempt >= t.nextAttempt
            && (Before(pc') ==>
                  (pc.Begin? && pc'.attempt == t.nextAttempt < t'.nextAttempt)
                  || (pc.NoteRequest? && pc'.attempt == pc.attempt))
  {}

  lemma StepKeepsFresh(t: Target, pc: Pc, task: Task)
    requires t.payload.Some? ==> t.payload.value.inode < t.nextInode
    requires t.staged.Some? ==> t.staged.value.inode < t.nextInode
    ensures var t' := Step(t, pc, task).0;
            t'.nextInode >= t.nextInode
            && (t'.payload.Some? ==> t'.payload.value.inode < t'.nextInode)
            && (t'.staged.Some? ==> t'.staged.value.inode < t'.nextInode)
  {}

  lemma GoKeepsOwn(w: World, j: JobId)
    requires Inv(w) && j in w.jobs
    ensures j in Apply(w, Go(j)).jobs && FillsOwn(Apply(w, Go(j)), j)
  {
    hide Step;
    var t, pc, task := Seen(w, j), w.jobs[j].pc, w.jobs[j].task;
    assert FillsOwn(w, j);
    StepKeepsFresh(t, pc, task);
    StepFills(t, pc, task);
    StepNumbers(t, pc, task);
    if t.payload.Some? { StepTouches(t, pc, task); }
  }

  lemma GoKeepsOthers(w: World, j: JobId, k: JobId)
    requires Inv(w) && j in w.jobs && k in w.jobs && k != j
    ensures k in Apply(w, Go(j)).jobs && FillsOwn(Apply(w, Go(j)), k)
  {
    hide Step;
    var t, pc, task := Seen(w, j), w.jobs[j].pc, w.jobs[j].task;
    assert FillsOwn(w, j) && FillsOwn(w, k);
    StepKeepsFresh(t, pc, task);
    StepFills(t, pc, task);
    if t.payload.Some? { StepTouches(t, pc, task); }
  }

  lemma GoKeepsInv(w: World, j: JobId)
    requires Inv(w) && j in w.jobs
    ensures Inv(Apply(w, Go(j)))
  {
    hide Step, FillsOwn;
    StepKeepsFresh(Seen(w, j), w.jobs[j].pc, w.jobs[j].task);
    StepMakes(w, j);
    var w' := Apply(w, Go(j));
    forall k | k in w'.jobs
      ensures FillsOwn(w', k)
    {
      if k == j { GoKeepsOwn(w, j); } else { GoKeepsOthers(w, j, k); }
    }
  }

  lemma StepMakes(w: World, j: JobId)
    requires Inv(w) && j in w.jobs
    ensures forall i <- Apply(w, Go(j)).makers :: i < Apply(w, Go(j)).nextInode
  {
    hide Step;
    assert FillsOwn(w, j);
    StepKeepsFresh(Seen(w, j), w.jobs[j].pc, w.jobs[j].task);
    StepFills(Seen(w, j), w.jobs[j].pc, w.jobs[j].task);
  }

  lemma StartOrCrashKeepsFills(w: World, e: Event, k: JobId)
    requires Inv(w) && k in w.jobs && (e.Start? || e.Crash?)
    ensures k in Apply(w, e).jobs && FillsOwn(Apply(w, e), k)
  {
    hide Step;
    assert FillsOwn(w, k);
  }

  lemma OtherKeepsFills(w: World, m: Meddling, k: JobId)
    requires Inv(w) && k in w.jobs
    ensures k in Apply(w, Other(m)).jobs && FillsOwn(Apply(w, Other(m)), k)
  {
    hide Step;
    assert FillsOwn(w, k);
  }

  lemma EventKeepsFresh(w: World, e: Event)
    requires Inv(w) && !e.Go?
    ensures Fresh(Apply(w, e)) && Apply(w, e).jobs.Keys == w.jobs.Keys
  {
    hide Step, FillsOwn;
  }

  lemma EventKeepsInv(w: World, e: Event)
    requires Inv(w)
    ensures Inv(Apply(w, e))
  {
    hide Step, FillsOwn, Fresh, Apply;
    if e.Go? {
      if e.j in w.jobs { GoKeepsInv(w, e.j); } else { NoSuchJob(w, e); }
    } else {
      EventKeepsFresh(w, e);
      forall k | k in w.jobs
        ensures k in Apply(w, e).jobs && FillsOwn(Apply(w, e), k)
      {
        if e.Other? { OtherKeepsFills(w, e.m, k); } else { StartOrCrashKeepsFills(w, e, k); }
      }
    }
  }

  lemma NoSuchJob(w: World, e: Event)
    requires e.Go? && e.j !in w.jobs
    ensures Apply(w, e) == w
  {}

  lemma {:induction false} RunsKeepInv(w: World, es: seq<Event>)
    requires Initial(w)
    ensures Inv(After(w, es))
  {
    hide Apply;
    if es != [] {
      RunsKeepInv(w, es[..|es| - 1]);
      EventKeepsInv(After(w, es[..|es| - 1]), es[|es| - 1]);
    }
  }

  // The event makes a job change a payload that its running attempt did not make.
  predicate WritesForeign(w: World, e: Event) {
    e.Go? && e.j in w.jobs && w.payload.Some? && Apply(w, e).payload != w.payload
    && !MadeBy(w, e.j, w.payload.value.inode)
  }

  // What can happen to a payload that stands there, in any state of any run: other programs, or rsync
  // writing for the attempt that made it.  No job ever takes it away or puts another one in its place.
  lemma OnlyItsMakerWrites(w0: World, es: seq<Event>, e: Event)
    requires Initial(w0) && After(w0, es).payload.Some? && !e.Other?
    ensures var w := After(w0, es);
            var w' := Apply(w, e);
            w'.payload == w.payload
            || (e.Go? && e.j in w.jobs && w.jobs[e.j].pc.Fill? && w.jobs[e.j].task.directory
                && w'.payload.Some? && w'.payload.value.inode == w.payload.value.inode
                && (WritesForeign(w, e) ==> w.jobs[e.j].robbed))
  {
    hide Step;
    var w := After(w0, es);
    RunsKeepInv(w0, es);
    if e.Go? && e.j in w.jobs {
      assert FillsOwn(w, e.j);
      StepTouches(Seen(w, e.j), w.jobs[e.j].pc, w.jobs[e.j].task);
    }
  }

  // What a look at the name before each write would tell: rsync is about to change a payload of another inode
  // than the one the attempt made.
  predicate Misled(w: World, e: Event) {
    e.Go? && e.j in w.jobs && w.jobs[e.j].pc.Fill? && w.jobs[e.j].task.directory && w.payload.Some?
    && w.jobs[e.j].pc.done < |w.jobs[e.j].task.writes| && w.payload.value.inode != w.jobs[e.j].pc.made
    && w.jobs[e.j].task.writes[w.jobs[e.j].pc.done](w.payload.value.data) != w.payload.value.data
  }

  // Exactly then a job changes a payload that its attempt did not make.
  lemma WritesForeignExactly(w0: World, es: seq<Event>, e: Event)
    requires Initial(w0)
    ensures WritesForeign(After(w0, es), e) <==> Misled(After(w0, es), e)
  {
    hide Step;
    var w := After(w0, es);
    RunsKeepInv(w0, es);
    if e.Go? && e.j in w.jobs && w.payload.Some? {
      assert FillsOwn(w, e.j);
      StepTouches(Seen(w, e.j), w.jobs[e.j].pc, w.jobs[e.j].task);
      GoSeen(w, e.j);
    }
  }

  // So in a run no job ever changes a payload that its attempt did not make if and only if no write of rsync
  // finds another inode under the name and something there to change.
  lemma NoForeignWriteExactly(w0: World, es: seq<Event>)
    requires Initial(w0)
    ensures (forall n :: 0 <= n < |es| ==> !WritesForeign(After(w0, es[..n]), es[n]))
       <==> forall n :: 0 <= n < |es| ==> !Misled(After(w0, es[..n]), es[n])
  {
    hide WritesForeign, Misled;
    forall n | 0 <= n < |es|
      ensures WritesForeign(After(w0, es[..n]), es[n]) <==> Misled(After(w0, es[..n]), es[n])
    {
      WritesForeignExactly(w0, es[..n], es[n]);
    }
  }

  predicate IsRemoval(e: Event) { e.Other? && e.m.Remove? }

  predicate NoRemoval(es: seq<Event>) { forall n :: 0 <= n < |es| ==> !IsRemoval(es[n]) }

  predicate NoAlteration(es: seq<Event>) { forall n :: 0 <= n < |es| ==> !(es[n].Other? && es[n].m.Alter?) }

  // Whoever was robbed lost a payload while his attempt was running.
  lemma {:induction false} RobbedByRemoval(w0: World, es: seq<Event>, j: JobId) returns (n: nat)
    requires Initial(w0) && j in After(w0, es).jobs && After(w0, es).jobs[j].robbed
    ensures n < |es| && IsRemoval(es[n])
    ensures forall k :: n < k <= |es| ==> j in After(w0, es[..k]).jobs && After(w0, es[..k]).jobs[j].robbed
  {
    hide Step;
    assert es != [];
    var front, last := es[..|es| - 1], es[|es| - 1];
    var w := After(w0, front);
    assert es[..|es|] == es;
    if IsRemoval(last) {
      n := |es| - 1;
    } else {
      RobbedBefore(w, last, j);
      n := RobbedByRemoval(w0, front, j);
      forall k | n < k <= |es|
        ensures j in After(w0, es[..k]).jobs && After(w0, es[..k]).jobs[j].robbed
      {
        if k < |es| { assert es[..k] == front[..k]; }
      }
    }
  }

  lemma RobbedBefore(w: World, e: Event, j: JobId)
    requires !IsRemoval(e) && j in Apply(w, e).jobs && Apply(w, e).jobs[j].robbed
    ensures j in w.jobs && w.jobs[j].robbed
  {
    hide Step;
  }

  // What it takes to get there: somebody took a payload away while that attempt was running.
  lemma ForeignWriteNeedsRemoval(w0: World, es: seq<Event>, e: Event) returns (n: nat)
    requires Initial(w0) && WritesForeign(After(w0, es), e)
    ensures n < |es| && IsRemoval(es[n])
    ensures forall k :: n < k <= |es| ==> e.j in After(w0, es[..k]).jobs && After(w0, es[..k]).jobs[e.j].robbed
  {
    hide Apply;
    OnlyItsMakerWrites(w0, es, e);
    RemainsFilling(After(w0, es), e);
    n := RobbedByRemoval(w0, es, e.j);
  }

  lemma RemainsFilling(w: World, e: Event)
    requires WritesForeign(w, e)
    ensures Apply(w, e).payload != w.payload && !e.Other? && e.j in w.jobs && w.payload.Some?
  {}

  // And what suffices: whenever an attempt still has to write into its directory, somebody may take that away
  // and another put his own in its place, and rsync changes that one if it finds something to change.
  lemma RemovalMisleadsRsync(w: World, j: JobId, data: Data)
    requires j in w.jobs && w.jobs[j].task.directory && w.jobs[j].pc.Fill?
    requires w.jobs[j].pc.done < |w.jobs[j].task.writes| && w.jobs[j].task.writes[w.jobs[j].pc.done](data) != data
    requires Inv(w)
    ensures WritesForeign(After(w, [Other(Remove), Other(Appear(data))]), Go(j))
  {
    hide Apply, Inv, WritesForeign, After;
    var e, f := Other(Remove), Other(Appear(data));
    AfterConcat(w, [e], [f]);
    AfterOne(w, e);
    AfterOne(Apply(w, e), f);
    assert [e] + [f] == [e, f];
    ReplacedPayload(w, j, data);
    MisledWrite(Apply(Apply(w, e), f), j);
  }

  lemma GoesOn(w: World, j: JobId, es: seq<Event>)
    requires j in After(w, es).jobs
    ensures var was := After(w, es);
            var now := After(w, es + [Go(j)]);
            j in now.jobs && (Seen(now, j), now.jobs[j].pc) == Step(Seen(was, j), was.jobs[j].pc, was.jobs[j].task)
            && now.jobs[j].task == was.jobs[j].task
  {
    hide Step, Apply;
    AfterConcat(w, es, [Go(j)]);
    AfterOne(After(w, es), Go(j));
    GoSeen(After(w, es), j);
  }

  // Where no payload stands, a job can come to write into a directory.
  lemma FillingIsReachable(w0: World, j: JobId, task: Task) returns (es: seq<Event>)
    requires Initial(w0) && j in w0.jobs && w0.payload.None? && task.directory
    ensures var w := After(w0, es);
            j in w.jobs && w.jobs[j].task == task && w.jobs[j].pc.Fill? && w.jobs[j].pc.done == 0
  {
    hide Apply, After;
    es := [Start(j, task)];
    Started(w0, j, task);
    for n := 0 to 6
      invariant var w := After(w0, es);
                j in w.jobs && w.jobs[j].task == task && AtStep(Seen(w, j), w.jobs[j].pc, n)
    {
      GoesOn(w0, j, es);
      es := es + [Go(j)];
    }
  }

  predicate AtStep(t: Target, pc: Pc, n: nat) {
    if n < 4 then
      t.payload.None?
      && (if n == 0 then pc == Look else if n == 1 then pc == Begin(None)
          else if n == 2 then pc.NoteRequest? && pc.found.None? else pc.Reserve?)
    else if n == 4 then pc.Watch? && t.payload.Some?
    else if n == 5 then pc.Enter? && Stands(t, pc.watched)
    else pc.Fill? && pc.done == 0
  }

  lemma Started(w0: World, j: JobId, task: Task)
    requires Initial(w0) && j in w0.jobs && w0.payload.None?
    ensures var w := After(w0, [Start(j, task)]);
            j in w.jobs && w.jobs[j].task == task && AtStep(Seen(w, j), w.jobs[j].pc, 0)
  {
    AfterOne(w0, Start(j, task));
  }

  // So the condition is met by runs from every such start.
  lemma MisledRunExists(w0: World, j: JobId, task: Task, data: Data) returns (es: seq<Event>)
    requires Initial(w0) && j in w0.jobs && w0.payload.None?
    requires task.directory && task.writes != [] && task.writes[0](data) != data
    ensures WritesForeign(After(w0, es), Go(j))
  {
    hide WritesForeign, Apply;
    var front := FillingIsReachable(w0, j, task);
    RunsKeepInv(w0, front);
    RemovalMisleadsRsync(After(w0, front), j, data);
    es := front + [Other(Remove), Other(Appear(data))];
    AfterConcat(w0, front, [Other(Remove), Other(Appear(data))]);
  }

  lemma ReplacedPayload(w: World, j: JobId, data: Data)
    requires j in w.jobs && Inv(w)
    ensures var w2 := Apply(Apply(w, Other(Remove)), Other(Appear(data)));
            w2.payload == Some(Payload(w.nextInode, data)) && w.nextInode !in w2.makers
            && j in w2.jobs && w2.jobs[j] == w.jobs[j].(robbed := true)
  {
    hide Step;
  }

  lemma MisledWrite(w: World, j: JobId)
    requires j in w.jobs && w.jobs[j].task.directory && w.jobs[j].pc.Fill? && w.payload.Some?
    requires w.jobs[j].pc.done < |w.jobs[j].task.writes|
    requires w.jobs[j].task.writes[w.jobs[j].pc.done](w.payload.value.data) != w.payload.value.data
    requires w.payload.value.inode !in w.makers
    ensures WritesForeign(w, Go(j))
  {}

  // As long as nobody else takes it away, the payload that stands there stays: no job replaces it.
  lemma {:induction false} PayloadIsNeverReplaced(w0: World, es: seq<Event>, i: nat)
    requires Initial(w0) && i <= |es| && After(w0, es[..i]).payload.Some? && NoRemoval(es[i..])
    ensures After(w0, es).payload.Some?
    ensures After(w0, es).payload.value.inode == After(w0, es[..i]).payload.value.inode
  {
    hide Step, Inv;
    if i == |es| {
      assert es[..i] == es;
    } else {
      var front, last := es[..|es| - 1], es[|es| - 1];
      assert front[..i] == es[..i] && last == es[i..][|es| - 1 - i];
      forall n | 0 <= n < |front[i..]|
        ensures !IsRemoval(front[i..][n])
      {
        assert front[i..][n] == es[i..][n];
      }
      PayloadIsNeverReplaced(w0, front, i);
      if !last.Other? { OnlyItsMakerWrites(w0, front, last); }
    }
  }

  // No job is at work in the directory.
  predicate Quiet(w: World, inode: Inode) {
    forall j <- w.jobs :: Filling(w.jobs[j]) ==> w.jobs[j].pc.made != inode
  }

  // A payload that no running attempt has made, whether it was there from the start, was left by an attempt that
  // ended or crashed, or appeared in the middle of another attempt, is left exactly as it is.
  lemma {:induction false} ForeignPayloadIsUntouched(w0: World, es: seq<Event>, i: nat)
    requires Initial(w0) && i <= |es| && NoRemoval(es) && NoAlteration(es[i..])
    requires After(w0, es[..i]).payload.Some? && Quiet(After(w0, es[..i]), After(w0, es[..i]).payload.value.inode)
    ensures After(w0, es).payload == After(w0, es[..i]).payload
    ensures Quiet(After(w0, es), After(w0, es).payload.value.inode)
  {
    hide Step, Inv, Apply;
    if i == |es| {
      assert es[..i] == es;
    } else {
      var front, last := es[..|es| - 1], es[|es| - 1];
      assert front[..i] == es[..i] && last == es[i..][|es| - 1 - i];
      assert NoAlteration(front[i..]) by {
        forall n | 0 <= n < |front[i..]|
          ensures !(front[i..][n].Other? && front[i..][n].m.Alter?)
        {
          assert front[i..][n] == es[i..][n];
        }
      }
      ForeignPayloadIsUntouched(w0, front, i);
      NobodyIsRobbed(w0, front);
      RunsKeepInv(w0, front);
      QuietStays(After(w0, front), last);
    }
  }

  lemma QuietStays(w: World, e: Event)
    requires Inv(w) && w.payload.Some? && Quiet(w, w.payload.value.inode)
    requires !IsRemoval(e) && !(e.Other? && e.m.Alter?) && forall j <- w.jobs :: !w.jobs[j].robbed
    ensures Apply(w, e).payload == w.payload && Quiet(Apply(w, e), w.payload.value.inode)
  {
    hide Step;
    if e.Go? && e.j in w.jobs {
      assert FillsOwn(w, e.j);
      StepTouches(Seen(w, e.j), w.jobs[e.j].pc, w.jobs[e.j].task);
      StepFills(Seen(w, e.j), w.jobs[e.j].pc, w.jobs[e.j].task);
    }
  }

  lemma {:induction false} NobodyIsRobbed(w0: World, es: seq<Event>)
    requires Initial(w0) && NoRemoval(es)
    ensures forall j <- After(w0, es).jobs :: !After(w0, es).jobs[j].robbed
  {
    hide Apply;
    if es != [] {
      var front, last := es[..|es| - 1], es[|es| - 1];
      assert NoRemoval(front);
      NobodyIsRobbed(w0, front);
      forall j <- After(w0, es).jobs
        ensures !After(w0, es).jobs[j].robbed
      {
        if After(w0, es).jobs[j].robbed { RobbedBefore(After(w0, front), last, j); }
      }
    }
  }

  // ---------- receipts ----------

  predicate Linked(t: Target, i: Inode) {
    exists name <- t.names :: !(name.InAttempt? && name.kind == PendingLink) && t.names[name] == i
  }

  // Inode numbers and attempt names are fresh, and every published receipt has a lasting name.
  ghost predicate ReceiptInv(t: Target) {
    (forall i <- t.published :: Linked(t, i))
    && (forall name <- t.names :: t.names[name] < t.nextInode)
    && (forall i <- t.records :: i < t.nextInode)
    && (forall name <- t.names :: name.InAttempt? ==> name.attempt < t.nextAttempt)
  }

  predicate Unused(t: Target, a: nat, kind: Kind) { InAttempt(a, kind) !in t.names }

  predicate ReceiptTrue(t: Target, name: Name, task: Task, seen: Payload) {
    name in t.names && t.names[name] in t.records
    && t.records[t.names[name]] == Some(Record(task.request, task.source, seen))
  }

  predicate Own(t: Target, a: nat) { a < t.nextAttempt }

  predicate NoneYet(t: Target, a: nat) { Own(t, a) && Unused(t, a, Receipt) && Unused(t, a, Previous) }

  // What an attempt has done by the time it stands at `pc`.
  predicate AtPc(t: Target, pc: Pc, task: Task) {
    match pc
    case Look => true
    case Recheck(seen, matches) => matches ==> ReceiptTrue(t, Complete, task, seen)
    case Begin(_) => true
    case NoteRequest(a, _) => Unused(t, a, Request) && NoneYet(t, a)
    case LinkFirst(a, seen) => ReceiptTrue(t, InAttempt(a, Receipt), task, seen) && Complete !in t.names
    case KeepPrevious(a, seen) =>
      ReceiptTrue(t, InAttempt(a, Receipt), task, seen) && Complete in t.names && Unused(t, a, Previous) && Own(t, a)
    case LinkPending(a, seen) =>
      ReceiptTrue(t, InAttempt(a, Receipt), task, seen) && Complete in t.names && InAttempt(a, Previous) in t.names
      && t.names[InAttempt(a, Previous)] == t.names[Complete] && Own(t, a)
    case Replace(a, seen) =>
      ReceiptTrue(t, InAttempt(a, PendingLink), task, seen) && Complete in t.names && InAttempt(a, Previous) in t.names
      && t.names[InAttempt(a, Previous)] == t.names[Complete]
    case Stopped(outcome) => outcome.Copied? ==> ReceiptTrue(t, Complete, task, outcome.seen)
    case _ => NoneYet(t, pc.attempt)
  }

  lemma FileKeepsInv(t: Target, name: Name, record: Option<Record>)
    requires ReceiptInv(t) && name !in t.names && (name.InAttempt? ==> name.attempt < t.nextAttempt)
    ensures ReceiptInv(WithFile(t, name, record))
  {
    var t' := WithFile(t, name, record);
    forall i <- t'.published
      ensures Linked(t', i)
    {
      assert Linked(t, i);
      var other :| other in t.names && !(other.InAttempt? && other.kind == PendingLink) && t.names[other] == i;
      assert t'.names[other] == i;
    }
  }

  // A new name, or a name whose file keeps another lasting one, may be given to a file.
  lemma LinkKeepsInv(t: Target, from: Name, name: Name, spare: Name)
    requires ReceiptInv(t) && from in t.names && (name.InAttempt? ==> name.attempt < t.nextAttempt)
    requires name in t.names ==>
               spare in t.names && spare != name && !(spare.InAttempt? && spare.kind == PendingLink)
                   && t.names[spare] == t.names[name]
    ensures ReceiptInv(WithLink(t, from, name))
  {
    var t' := WithLink(t, from, name);
    forall i <- t'.published
      ensures Linked(t', i)
    {
      assert Linked(t, i);
      var other :| other in t.names && !(other.InAttempt? && other.kind == PendingLink) && t.names[other] == i;
      assert t'.names[if other == name then spare else other] == i;
    }
  }

  lemma PublishedIsLinked(t: Target)
    requires ReceiptInv(t)
    ensures ReceiptInv(t.(published := Reached(t)))
  {
    var t' := t.(published := Reached(t));
    forall i <- t'.published
      ensures Linked(t', i)
    {
      if i in t.published {
        assert Linked(t, i);
        var other :| other in t.names && !(other.InAttempt? && other.kind == PendingLink) && t.names[other] == i;
        assert t'.names[other] == i;
      } else {
        assert t'.names[Complete] == i;
      }
    }
  }

  lemma UnlinkKeepsInv(t: Target, a: nat)
    requires ReceiptInv(t)
    ensures ReceiptInv(t.(names := t.names - {InAttempt(a, PendingLink)}))
  {
    var t' := t.(names := t.names - {InAttempt(a, PendingLink)});
    forall i <- t'.published
      ensures Linked(t', i)
    {
      assert Linked(t, i);
      var other :| other in t.names && !(other.InAttempt? && other.kind == PendingLink) && t.names[other] == i;
      assert t'.names[other] == i;
    }
  }

  // A pending link is never the lasting name of a receipt.
  lemma PendingKeepsInv(t: Target, a: nat)
    requires ReceiptInv(t) && InAttempt(a, Receipt) in t.names && a < t.nextAttempt
    ensures ReceiptInv(WithLink(t, InAttempt(a, Receipt), InAttempt(a, PendingLink)))
  {
    var t' := WithLink(t, InAttempt(a, Receipt), InAttempt(a, PendingLink));
    forall i <- t'.published
      ensures Linked(t', i)
    {
      assert Linked(t, i);
      var other :| other in t.names && !(other.InAttempt? && other.kind == PendingLink) && t.names[other] == i;
      assert t'.names[other] == i;
    }
  }

  lemma SameNamesKeepInv(t: Target, t': Target)
    requires ReceiptInv(t) && t'.names == t.names && t'.records == t.records && t'.published == t.published
    requires t'.nextInode >= t.nextInode && t'.nextAttempt >= t.nextAttempt
    ensures ReceiptInv(t')
  {
    forall i <- t'.published
      ensures Linked(t', i)
    {
      assert Linked(t, i);
      var other :| other in t.names && !(other.InAttempt? && other.kind == PendingLink) && t.names[other] == i;
      assert t'.names[other] == i;
    }
  }

  // Every step leaves each published receipt a lasting name.
  lemma StepKeepsReceipts(t: Target, pc: Pc, task: Task)
    requires ReceiptInv(t) && AtPc(t, pc, task)
    ensures ReceiptInv(Step(t, pc, task).0)
  {
    hide Linked;
    match pc {
      case NoteRequest(a, _) => FileKeepsInv(t, InAttempt(a, Request), None);
      case WriteReceipt(a, seen) =>
        FileKeepsInv(t, InAttempt(a, Receipt), Some(Record(task.request, task.source, seen)));
      case LinkFirst(a, _) =>
        LinkKeepsInv(t, InAttempt(a, Receipt), Complete, Complete);
        PublishedIsLinked(WithLink(t, InAttempt(a, Receipt), Complete));
      case KeepPrevious(a, _) => LinkKeepsInv(t, Complete, InAttempt(a, Previous), Complete);
      case LinkPending(a, _) => PendingKeepsInv(t, a);
      case Replace(a, _) =>
        var t' := WithLink(t, InAttempt(a, PendingLink), Complete);
        LinkKeepsInv(t, InAttempt(a, PendingLink), Complete, InAttempt(a, Previous));
        UnlinkKeepsInv(t', a);
        PublishedIsLinked(t'.(names := t'.names - {InAttempt(a, PendingLink)}));
      case _ => SameNamesKeepInv(t, Step(t, pc, task).0);
    }
  }

  lemma StepKeepsAtPc(t: Target, pc: Pc, task: Task)
    requires ReceiptInv(t) && AtPc(t, pc, task)
    ensures var (t', pc') := Step(t, pc, task); AtPc(t', pc', task)
  {
    hide Linked;
  }

  // What a file says is never rewritten, and a receipt once published stays so.
  lemma StepKeepsRecords(t: Target, pc: Pc, task: Task, i: Inode)
    requires ReceiptInv(t)
    ensures var t' := Step(t, pc, task).0;
            t.published <= t'.published && (i in t.records ==> i in t'.records && t'.records[i] == t.records[i])
  {
    hide Linked;
  }

  ghost predicate JobOk(w: World, j: JobId)
    requires j in w.jobs
  {
    ReceiptInv(Seen(w, j)) && AtPc(Seen(w, j), w.jobs[j].pc, w.jobs[j].task)
  }

  // What a job has published, and what its metadata say, is still so.
  predicate Keeps(w: World, w': World, j: JobId)
    requires j in w.jobs
  {
    j in w'.jobs && w.jobs[j].published <= w'.jobs[j].published
    && forall i <- w.jobs[j].records :: i in w'.jobs[j].records && w'.jobs[j].records[i] == w.jobs[j].records[i]
  }

  // A job whose own files and place stay as they are, while others use up inode numbers.
  lemma UndisturbedJob(w: World, w': World, j: JobId)
    requires j in w.jobs && JobOk(w, j) && j in w'.jobs && w'.nextInode >= w.nextInode
    requires w'.jobs[j].(pc := w.jobs[j].pc, task := w.jobs[j].task, robbed := w.jobs[j].robbed) == w.jobs[j]
    requires (w'.jobs[j].pc == w.jobs[j].pc && w'.jobs[j].task == w.jobs[j].task) || w'.jobs[j].pc == Look
             || w'.jobs[j].pc == Stopped(Failed)
    ensures JobOk(w', j) && Keeps(w, w', j)
  {
    SameNamesKeepInv(Seen(w, j), Seen(w', j));
    SamePlace(Seen(w, j), Seen(w', j), w.jobs[j].pc, w.jobs[j].task);
  }

  lemma SamePlace(t: Target, t': Target, pc: Pc, task: Task)
    requires AtPc(t, pc, task) && t'.names == t.names && t'.records == t.records && t'.nextAttempt == t.nextAttempt
    ensures AtPc(t', pc, task)
  {}

  lemma GoKeepsReceipts(w: World, j: JobId)
    requires j in w.jobs && JobOk(w, j)
    ensures Keeps(w, Apply(w, Go(j)), j) && JobOk(Apply(w, Go(j)), j)
  {
    hide Step, ReceiptInv, AtPc, Apply;
    var t, pc, task := Seen(w, j), w.jobs[j].pc, w.jobs[j].task;
    StepKeepsReceipts(t, pc, task);
    StepKeepsAtPc(t, pc, task);
    GoSeen(w, j);
    StepKeepsRecords(t, pc, task, 0);
    forall i | i in t.records
      ensures i in Step(t, pc, task).0.records && Step(t, pc, task).0.records[i] == t.records[i]
    {
      StepKeepsRecords(t, pc, task, i);
    }
  }

  lemma EventKeepsReceipts(w: World, e: Event, j: JobId)
    requires Inv(w) && j in w.jobs && JobOk(w, j)
    ensures Keeps(w, Apply(w, e), j) && JobOk(Apply(w, e), j)
  {
    hide Step, JobOk, Keeps, FillsOwn;
    if e.Go? && e.j == j {
      GoKeepsReceipts(w, j);
    } else {
      if e.Go? && e.j in w.jobs { StepKeepsFresh(Seen(w, e.j), w.jobs[e.j].pc, w.jobs[e.j].task); }
      UndisturbedJob(w, Apply(w, e), j);
    }
  }

  lemma {:induction false} ReceiptsAreKept(w0: World, es: seq<Event>, j: JobId)
    requires Initial(w0) && j in w0.jobs
    ensures j in After(w0, es).jobs && JobOk(After(w0, es), j)
  {
    hide Apply, JobOk;
    if es == [] {
      NothingYet(w0, j);
    } else {
      ReceiptsAreKept(w0, es[..|es| - 1], j);
      RunsKeepInv(w0, es[..|es| - 1]);
      EventKeepsReceipts(After(w0, es[..|es| - 1]), es[|es| - 1], j);
    }
  }

  lemma NothingYet(w: World, j: JobId)
    requires Initial(w) && j in w.jobs
    ensures JobOk(w, j)
  {}

  // Whatever crashes and however the jobs interleave: every receipt that was ever published as `complete.json`
  // still has a name and still says the same.
  lemma {:induction false} ReceiptsAreNeverLost(w0: World, es: seq<Event>, n: nat, j: JobId, i: Inode)
    requires Initial(w0) && j in w0.jobs && n <= |es|
    requires j in After(w0, es[..n]).jobs && i in After(w0, es[..n]).jobs[j].published
    ensures j in After(w0, es).jobs && i in After(w0, es).jobs[j].published && Linked(Seen(After(w0, es), j), i)
    ensures var was, now := After(w0, es[..n]).jobs[j].records, After(w0, es).jobs[j].records;
            i in was ==> i in now && now[i] == was[i]
  {
    hide Apply, Linked;
    ReceiptsAreKept(w0, es, j);
    if n == |es| {
      assert es[..n] == es;
    } else {
      var front, last := es[..|es| - 1], es[|es| - 1];
      assert front[..n] == es[..n];
      ReceiptsAreNeverLost(w0, front, n, j, i);
      ReceiptsAreKept(w0, front, j);
      RunsKeepInv(w0, front);
      EventKeepsReceipts(After(w0, front), last, j);
    }
  }

  // The payload an attempt vouches for from some step on.
  function VouchedFor(pc: Pc): Option<Payload> {
    match pc
    case WriteReceipt(_, seen) => Some(seen)
    case LinkFirst(_, seen) => Some(seen)
    case KeepPrevious(_, seen) => Some(seen)
    case LinkPending(_, seen) => Some(seen)
    case Replace(_, seen) => Some(seen)
    case Stopped(Copied(seen)) => Some(seen)
    case _ => None
  }

  lemma StartsToVouch(t: Target, pc: Pc, task: Task)
    ensures var v := VouchedFor(Step(t, pc, task).1);
            v.None? || v == VouchedFor(pc) || (v == t.payload && !pc.Stopped?)
  {}

  lemma VouchesSince(w: World, e: Event, j: JobId)
    requires j in Apply(w, e).jobs && VouchedFor(Apply(w, e).jobs[j].pc).Some?
    ensures j in w.jobs && Apply(w, e).jobs[j].task == w.jobs[j].task
    ensures var v := VouchedFor(Apply(w, e).jobs[j].pc);
            v == VouchedFor(w.jobs[j].pc) || (v == w.payload && !w.jobs[j].pc.Stopped?)
  {
    hide Step;
    if e.Go? && e.j == j {
      StartsToVouch(Seen(w, j), w.jobs[j].pc, w.jobs[j].task);
      GoSeen(w, j);
    }
  }

  lemma {:induction false} VouchedWasInPlace(w0: World, es: seq<Event>, j: JobId) returns (n: nat)
    requires Initial(w0) && j in After(w0, es).jobs && VouchedFor(After(w0, es).jobs[j].pc).Some?
    ensures n <= |es| && After(w0, es[..n]).payload == VouchedFor(After(w0, es).jobs[j].pc)
    ensures j in After(w0, es[..n]).jobs && !After(w0, es[..n]).jobs[j].pc.Stopped?
    ensures After(w0, es[..n]).jobs[j].task == After(w0, es).jobs[j].task
  {
    hide Apply, VouchedFor;
    assert es != [] by { NothingVouched(w0, es, j); }
    var front, last := es[..|es| - 1], es[|es| - 1];
    var w := After(w0, front);
    VouchesSince(w, last, j);
    if VouchedFor(w.jobs[j].pc) == VouchedFor(After(w0, es).jobs[j].pc) {
      n := VouchedWasInPlace(w0, front, j);
      assert front[..n] == es[..n];
    } else {
      n := |es| - 1;
    }
  }

  lemma NothingVouched(w0: World, es: seq<Event>, j: JobId)
    requires Initial(w0) && j in After(w0, es).jobs && VouchedFor(After(w0, es).jobs[j].pc).Some?
    ensures es != []
  {}

  // A successful attempt leaves a published receipt for its request and source, and the payload it describes
  // stood under the shared name while the attempt was running.
  lemma CopiedHasTrueReceipt(w0: World, es: seq<Event>, j: JobId) returns (n: nat)
    requires Initial(w0) && j in w0.jobs && j in After(w0, es).jobs
    requires After(w0, es).jobs[j].pc.Stopped? && After(w0, es).jobs[j].pc.outcome.Copied?
    ensures var w := After(w0, es); MatchesReceipt(Seen(w, j), w.jobs[j].task, w.jobs[j].pc.outcome.seen)
    ensures n <= |es| && After(w0, es[..n]).payload == Some(After(w0, es).jobs[j].pc.outcome.seen)
    ensures j in After(w0, es[..n]).jobs && !After(w0, es[..n]).jobs[j].pc.Stopped?
    ensures After(w0, es[..n]).jobs[j].task == After(w0, es).jobs[j].task
  {
    hide Apply;
    ReceiptsAreKept(w0, es, j);
    n := VouchedWasInPlace(w0, es, j);
  }
}
