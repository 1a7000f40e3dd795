// Installing a staged restore at startup, where a crash may follow any step and the next start begins again.
module Restore {
  import opened Options

  type Data = string

  // The write-ahead log beside the database; `Frames` holds what the database says with it replayed.
  datatype Wal = Absent | Emptied | Frames(content: Data)

  datatype Staged = Staged(db: Data, settings: Data, notes: Data)

  // The files of the data directory.  `installed` records that the staged database has been copied.
  datatype Disk = Disk(
    main: Option<Data>, wal: Wal, settings: Option<Data>, notes: Option<Data>,
    pending: bool, saved: bool,
    rollbackDb: Option<Data>, rollbackSettings: Option<Data>, rollbackNotes: Option<Data>,
    installed: bool)

  // What opening a database with its own journal finds.
  function Logical(d: Disk): Option<Data> {
    if d.main.Some? && d.wal.Frames? then Some(d.wal.content) else d.main
  }

  // The next step of one attempt.
  datatype Pc =
    | Begin | SaveDb | SaveSettings | SaveNotes | MarkSaved
    | Checkpoint | DropWal | InstallDb | InstallSettings | InstallNotes | Finish | Ended

  function Kept(current: Option<Data>, before: Option<Data>): Option<Data> {
    if current.Some? then current else before
  }

  function Step(d: Disk, pc: Pc, staged: Staged): (Disk, Pc) {
    match pc
    case Begin => (d, if !d.pending then Ended else if d.saved then Checkpoint else SaveDb)
    case SaveDb => (d.(rollbackDb := Kept(Logical(d), d.rollbackDb)), SaveSettings)
    case SaveSettings => (d.(rollbackSettings := Kept(d.settings, d.rollbackSettings)), SaveNotes)
    case SaveNotes => (d.(rollbackNotes := Kept(d.notes, d.rollbackNotes)), MarkSaved)
    case MarkSaved => (d.(saved := true), Checkpoint)
    case Checkpoint =>
      if d.main.None? then (d, InstallDb) else (d.(main := Logical(d), wal := Emptied), DropWal)
    case DropWal => (d.(wal := Absent), InstallDb)
    case InstallDb => (d.(main := Some(staged.db), installed := true), InstallSettings)
    case InstallSettings => (d.(settings := Some(staged.settings)), InstallNotes)
    case InstallNotes => (d.(notes := Some(staged.notes)), Finish)
    case Finish => (d.(pending := false), Ended)
    case Ended => (d, Ended)
  }

  // One attempt that gets through `steps` steps before it ends, fails or crashes.
  function Continue(d: Disk, pc: Pc, staged: Staged, steps: nat): (Disk, Pc)
    decreases steps
  {
    if steps == 0 then (d, pc)
    else
      var (d', pc') := Step(d, pc, staged);
      Continue(d', pc', staged, steps - 1)
  }

  // Any number of attempts, each re-entered from the top.
  function Attempts(d: Disk, staged: Staged, steps: seq<nat>): Disk {
    if steps == [] then d
    else Continue(Attempts(d, staged, steps[..|steps| - 1]), Begin, staged, steps[|steps| - 1]).0
  }

  // Right after staging: nothing has been saved or installed yet.
  predicate JustStaged(d: Disk) {
    d.pending && !d.saved && !d.installed
    && d.rollbackDb.None? && d.rollbackSettings.None? && d.rollbackNotes.None?
  }

  // ---------- the program ----------

  class DataDirectory {
    const staged: Staged
    var main: Option<Data>
    var wal: Wal
    var settings: Option<Data>
    var notes: Option<Data>
    var pending: bool
    var saved: bool
    var rollbackDb: Option<Data>
    var rollbackSettings: Option<Data>
    var rollbackNotes: Option<Data>
    ghost var installed: bool

    ghost function View(): Disk
      reads this
    {
      Disk(main, wal, settings, notes, pending, saved, rollbackDb, rollbackSettings, rollbackNotes, installed)
    }

    // Saves what is installed, once; `allowed` steps are left before the crash.
    method SavePrevious(allowed: nat) returns (left: nat, crashed: bool)
      requires pending && !saved
      modifies this`rollbackDb, this`rollbackSettings, this`rollbackNotes, this`saved
      ensures crashed ==> View() == Continue(old(View()), SaveDb, staged, allowed).0
      ensures !crashed ==> Continue(old(View()), SaveDb, staged, allowed) == Continue(View(), Checkpoint, staged, left)
    {
      hide Continue;
      left := allowed;
      Stopped(staged);
      if left == 0 { return left, true; }
      ghost var before := View();
      if main.Some? { rollbackDb := if wal.Frames? then Some(wal.content) else main; }
      left := left - 1;
      Next(before, SaveDb, View(), SaveSettings, staged, left);
      if left == 0 { return left, true; }
      before := View();
      if settings.Some? { rollbackSettings := settings; }
      left := left - 1;
      Next(before, SaveSettings, View(), SaveNotes, staged, left);
      if left == 0 { return left, true; }
      before := View();
      if notes.Some? { rollbackNotes := notes; }
      left := left - 1;
      Next(before, SaveNotes, View(), MarkSaved, staged, left);
      if left == 0 { return left, true; }
      before := View();
      saved := true;
      left := left - 1;
      Next(before, MarkSaved, View(), Checkpoint, staged, left);
      return left, false;
    }

    // Removes the journals of an existing database, after folding them into it.
    method FoldJournal(allowed: nat) returns (left: nat, crashed: bool)
      modifies this`main, this`wal
      ensures crashed ==> View() == Continue(old(View()), Checkpoint, staged, allowed).0
      ensures !crashed ==>
                Continue(old(View()), Checkpoint, staged, allowed) == Continue(View(), InstallDb, staged, left)
    {
      hide Continue;
      left := allowed;
      Stopped(staged);
      if left == 0 { return left, true; }
      ghost var before := View();
      if main.None? {
        Next(before, Checkpoint, View(), InstallDb, staged, left - 1);
        return left - 1, false;
      }
      if wal.Frames? { main := Some(wal.content); }
      wal := Emptied;
      left := left - 1;
      Next(before, Checkpoint, View(), DropWal, staged, left);
      if left == 0 { return left, true; }
      before := View();
      wal := Absent;
      left := left - 1;
      Next(before, DropWal, View(), InstallDb, staged, left);
      return left, false;
    }

    method Install(allowed: nat)
      requires pending
      modifies this`main, this`settings, this`notes, this`installed, this`pending
      ensures View() == Continue(old(View()), InstallDb, staged, allowed).0
    {
      hide Continue;
      var left := allowed;
      Stopped(staged);
      if left == 0 { return; }
      ghost var before := View();
      main := Some(staged.db);
      installed := true;
      left := left - 1;
      Next(before, InstallDb, View(), InstallSettings, staged, left);
      if left == 0 { return; }
      before := View();
      settings := Some(staged.settings);
      left := left - 1;
      Next(before, InstallSettings, View(), InstallNotes, staged, left);
      if left == 0 { return; }
      before := View();
      notes := Some(staged.notes);
      left := left - 1;
      Next(before, InstallNotes, View(), Finish, staged, left);
      if left == 0 { return; }
      before := View();
      pending := false;
      Next(before, Finish, View(), Ended, staged, left - 1);
      EndedStays(View(), staged, left - 1);
    }

    // One start of the program.
    method ApplyPendingRestore(steps: nat)
      modifies this
      ensures View() == Continue(old(View()), Begin, staged, steps).0
    {
      hide Continue;
      Stopped(staged);
      if steps == 0 { return; }
      Next(View(), Begin, View(), if !pending then Ended else if saved then Checkpoint else SaveDb, staged, steps - 1);
      if !pending {
        EndedStays(View(), staged, steps - 1);
        return;
      }
      var left, crashed := steps - 1, false;
      if !saved {
        left, crashed := SavePrevious(left);
        if crashed { return; }
      }
      left, crashed := FoldJournal(left);
      if crashed { return; }
      Install(left);
    }
  }

  lemma Next(d: Disk, pc: Pc, d': Disk, pc': Pc, staged: Staged, left: nat)
    requires Step(d, pc, staged) == (d', pc')
    ensures Continue(d, pc, staged, left + 1) == Continue(d', pc', staged, left)
  {}

  lemma Stopped(staged: Staged)
    ensures forall d, pc :: Continue(d, pc, staged, 0) == (d, pc)
  {}

  lemma {:induction false} EndedStays(d: Disk, staged: Staged, steps: nat)
    ensures Continue(d, Ended, staged, steps) == (d, Ended)
  {
    if steps > 0 { EndedStays(d, staged, steps - 1); }
  }

  // ---------- what holds after any crash ----------

  // How far an attempt has got.
  function Rank(pc: Pc): nat {
    match pc
    case Begin => 0
    case SaveDb => 1
    case SaveSettings => 2
    case SaveNotes => 3
    case MarkSaved => 4
    case Checkpoint => 5
    case DropWal => 6
    case InstallDb => 7
    case InstallSettings => 8
    case InstallNotes => 9
    case Finish => 10
    case Ended => 11
  }

  // Until everything is saved nothing else has changed; from then on the rollback copy is complete and final.
  predicate Inv(d: Disk, first: Disk, staged: Staged) {
    (if !d.saved then
       d.main == first.main && d.wal == first.wal && d.settings == first.settings && d.notes == first.notes
       && d.pending && !d.installed
       && (d.rollbackDb.Some? ==> d.rollbackDb == Logical(first))
       && (d.rollbackSettings.Some? ==> d.rollbackSettings == first.settings)
       && (d.rollbackNotes.Some? ==> d.rollbackNotes == first.notes)
     else
       d.rollbackDb == Logical(first) && d.rollbackSettings == first.settings && d.rollbackNotes == first.notes
       && (first.main.Some? ==> d.main.Some?))
    && (!d.pending ==> d.saved && d.installed && d.main == Some(staged.db) && d.settings == Some(staged.settings)
                       && d.notes == Some(staged.notes))
    && (!d.installed ==> Logical(d) == Logical(first))
  }

  // What the attempt under way has done by the time it stands at `pc`.
  predicate AtPc(d: Disk, pc: Pc, first: Disk, staged: Staged) {
    (0 < Rank(pc) < 11 ==> d.pending)
    && (1 <= Rank(pc) <= 4 ==> !d.saved)
    && (5 <= Rank(pc) <= 10 ==> d.saved)
    && (2 <= Rank(pc) <= 4 ==> d.rollbackDb == Logical(first))
    && (3 <= Rank(pc) <= 4 ==> d.rollbackSettings == first.settings)
    && (Rank(pc) == 4 ==> d.rollbackNotes == first.notes)
    && (8 <= Rank(pc) <= 10 ==> d.main == Some(staged.db) && d.installed)
    && (9 <= Rank(pc) <= 10 ==> d.settings == Some(staged.settings))
    && (Rank(pc) == 10 ==> d.notes == Some(staged.notes))
  }

  // No journal of another database lies beside the installed one.
  predicate Fresh(d: Disk) { d.installed ==> !d.wal.Frames? }

  // The journals are removed only beside an existing database.
  predicate JournalRemovable(first: Disk) { first.main.Some? || !first.wal.Frames? }

  predicate NoJournal(d: Disk, pc: Pc, first: Disk) {
    JournalRemovable(first) ==>
      Fresh(d) && (6 <= Rank(pc) <= 10 ==> !d.wal.Frames?) && (first.main.None? ==> !d.wal.Frames?)
  }

  lemma StepKeepsInv(d: Disk, pc: Pc, first: Disk, staged: Staged)
    requires Inv(d, first, staged) && AtPc(d, pc, first, staged) && NoJournal(d, pc, first)
    ensures var (d', pc') := Step(d, pc, staged);
            Inv(d', first, staged) && AtPc(d', pc', first, staged) && NoJournal(d', pc', first)
  {}

  lemma {:induction false} AttemptKeepsInv(d: Disk, pc: Pc, first: Disk, staged: Staged, steps: nat)
    requires Inv(d, first, staged) && AtPc(d, pc, first, staged) && NoJournal(d, pc, first)
    ensures var (d', pc') := Continue(d, pc, staged, steps);
            Inv(d', first, staged) && AtPc(d', pc', first, staged) && NoJournal(d', pc', first)
    decreases steps
  {
    hide Inv, AtPc, NoJournal, Step;
    if steps > 0 {
      StepKeepsInv(d, pc, first, staged);
      var (d', pc') := Step(d, pc, staged);
      AttemptKeepsInv(d', pc', first, staged, steps - 1);
    }
  }

  lemma {:induction false} AttemptsKeepInv(first: Disk, staged: Staged, steps: seq<nat>)
    requires JustStaged(first)
    ensures var d := Attempts(first, staged, steps);
            Inv(d, first, staged) && AtPc(d, Begin, first, staged) && NoJournal(d, Begin, first)
  {
    if steps != [] {
      AttemptsKeepInv(first, staged, steps[..|steps| - 1]);
      AttemptKeepsInv(Attempts(first, staged, steps[..|steps| - 1]), Begin, first, staged, steps[|steps| - 1]);
    }
  }

  // Whatever crashes: the previous database is in place or in the rollback directory, and opening the data
  // directory finds it until the staged one is copied in; the rollback
  // directory holds nothing but what was there before, and once the pending directory is gone all
  // three files are the staged ones and the rollback copy is complete.
  lemma RestoreIsCrashSafe(first: Disk, staged: Staged, steps: seq<nat>)
    requires JustStaged(first)
    ensures var d := Attempts(first, staged, steps);
            (Logical(first).Some? ==> Logical(d) == Logical(first) || d.rollbackDb == Logical(first))
            && (!d.installed ==> Logical(d) == Logical(first))
            && (first.settings.Some? ==> d.settings == first.settings || d.rollbackSettings == first.settings)
            && (first.notes.Some? ==> d.notes == first.notes || d.rollbackNotes == first.notes)
            && (d.rollbackDb.Some? ==> d.rollbackDb == Logical(first))
            && (!d.pending ==>
                  d.main == Some(staged.db) && d.settings == Some(staged.settings) && d.notes == Some(staged.notes)
                  && d.rollbackDb == Logical(first) && d.rollbackSettings == first.settings
                  && d.rollbackNotes == first.notes)
  {
    AttemptsKeepInv(first, staged, steps);
  }

  // An attempt that is not cut short completes the restore, whatever happened before it.
  lemma UninterruptedAttemptCompletes(first: Disk, staged: Staged, steps: seq<nat>)
    requires JustStaged(first)
    ensures !Attempts(first, staged, steps + [11]).pending
  {
    AttemptsKeepInv(first, staged, steps);
    var d := Attempts(first, staged, steps);
    assert (steps + [11])[..|steps|] == steps;
    ElevenSteps(d, staged);
  }

  lemma {:induction false} RanksGrow(d: Disk, pc: Pc, staged: Staged, steps: nat)
    requires Rank(pc) > 0 && (pc == Ended ==> !d.pending)
    requires Rank(pc) + steps >= 11
    ensures var (d', pc') := Continue(d, pc, staged, steps); pc' == Ended && !d'.pending
    decreases steps
  {
    if steps > 0 {
      var (d', pc') := Step(d, pc, staged);
      RanksGrow(d', pc', staged, steps - 1);
    }
  }

  lemma ElevenSteps(d: Disk, staged: Staged)
    ensures !Continue(d, Begin, staged, 11).0.pending
  {
    var (d', pc') := Step(d, Begin, staged);
    RanksGrow(d', pc', staged, 10);
  }

  // A journal left without its database is not removed: the program installs the restored database
  // beside it.  This is the only case.
  lemma NoStaleJournalExactly(first: Disk, staged: Staged)
    requires JustStaged(first)
    ensures JournalRemovable(first) <==> forall steps :: Fresh(Attempts(first, staged, steps))
  {
    if JournalRemovable(first) {
      forall steps
        ensures Fresh(Attempts(first, staged, steps))
      {
        AttemptsKeepInv(first, staged, steps);
      }
    } else {
      StaleJournal(first, staged);
    }
  }

  // One attempt without a crash then leaves the old journal beside the restored database.
  lemma StaleJournal(first: Disk, staged: Staged)
    requires JustStaged(first) && !JournalRemovable(first)
    ensures var d := Attempts(first, staged, [11]);
            !Fresh(d) && !d.pending && d.main == Some(staged.db) && d.wal == first.wal && d.wal != Absent
  {
    assert Attempts(first, staged, []) == first && [11][..0] == [];
    assert Continue(first, Begin, staged, 11) == Continue(Step(first, Begin, staged).0, SaveDb, staged, 10);
    UnchangedJournal(first, Begin, staged, 11);
    ElevenSteps(first, staged);
    AttemptsKeepInv(first, staged, [11]);
  }

  // Without a database at the start of an attempt, the journal is not touched by it.
  lemma {:induction false} UnchangedJournal(d: Disk, pc: Pc, staged: Staged, steps: nat)
    requires (Rank(pc) <= 5 ==> d.main.None?) && pc != DropWal
    ensures Continue(d, pc, staged, steps).0.wal == d.wal
    decreases steps
  {
    if steps > 0 {
      var (d', pc') := Step(d, pc, staged);
      UnchangedJournal(d', pc', staged, steps - 1);
    }
  }
}
