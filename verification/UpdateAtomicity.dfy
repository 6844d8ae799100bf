/** Updates and rollbacks are all or nothing through any crashes, exceptions and recoveries, and when they are not. */
module UpdateAtomicity {
  import opened Wrappers
  import opened UpdateProtocol
  import opened UpdateRuns
  import opened UpdateCompletion

  /** Recovery chooses the operation's own backup once the marker names it. */
  ghost predicate IsChosen(v: Verifier, d: Disk, op: Operation) {
    SafeId(op.backup) || IsLatest(v, d, op.backup)
  }

  /** The status under which an operation that succeeds archives its marker. */
  function Committing(op: Operation): Ending {
    if op.kind.Install? then EndInstalled else EndRollbackInstalled
  }

  /** The first marker archived after `archived` is that of the completed operation. */
  predicate Committed(d: Disk, op: Operation, archived: seq<Ending>) {
    |archived| < |d.archive| && d.archive[|archived|] == Committing(op)
  }

  /** The invariant from the moment the operation's marker is written. */
  ghost predicate OldOrNew(v: Verifier, s: State, op: Operation, archived: seq<Ending>) {
    var d := s.disk;
    && archived <= d.archive
    && Restorable(v, d, op.backup) && d.backups[op.backup].files == op.undo && IsChosen(v, d, op)
    && (d.marker.Some? ==> d.archive == archived && Records(d, op.backup))
    && match s.task
       case Idle(_, _) => d.marker.None? ==> d.installed == if Committed(d, op, archived) then op.target else op.undo
       case Busy(phase, op', pc) =>
         && d.marker.Some?
         && if op'.kind.Recover? then op'.source == Saved(op.backup) else op' == op && !phase.Preparing?
  }

  lemma SameBackupsSameChoice(v: Verifier, d: Disk, e: Disk, op: Operation)
    requires d.backups == e.backups && IsChosen(v, d, op)
    ensures IsChosen(v, e, op)
  {
    if IsLatest(v, d, op.backup) {
      assert forall m :: Restorable(v, e, m) <==> Restorable(v, d, m);
      assert forall m, n :: Restorable(v, d, m) && Restorable(v, d, n) ==> (Older(e, m, n) <==> Older(d, m, n));
    }
  }

  lemma ChosenIsRecoverySource(v: Verifier, d: Disk, op: Operation)
    requires Restorable(v, d, op.backup) && Records(d, op.backup) && IsChosen(v, d, op)
    ensures RecoverySource(v, d) == Some(op.backup)
  {
    if !SafeId(op.backup) {
      LatestIsUnique(v, d, op.backup, LatestBackup(v, d).value);
    }
  }

  lemma ApplyingKeepsOldOrNew(v: Verifier, s: State, l: Label, op: Operation, archived: seq<Ending>)
    requires Safe(v, s) && OldOrNew(v, s, op, archived) && s.task.Busy? && s.task.phase.Applying?
    ensures OldOrNew(v, Next(v, s, l), op, archived)
  {
    hide ValidPair, PreparingStep, IsChosen;
    var pc := s.task.pc;
    LaterStepsKeepBackups(v, s, l);
    SameBackupsSameChoice(v, s.disk, Next(v, s, l).disk, op);
    if op.kind.Install? { assert StepAt(Applying, op, pc) == InstallStep(op, pc); }
    else { assert StepAt(Applying, op, pc) == RollbackStep(op, pc); }
    if pc == Length(Applying, op) - 1 { } else { }
  }

  lemma RestoringKeepsOldOrNew(v: Verifier, s: State, l: Label, op: Operation, archived: seq<Ending>)
    requires Safe(v, s) && OldOrNew(v, s, op, archived)
    requires s.task.Busy? && (s.task.phase.Undoing? || s.task.phase.Recovering?)
    ensures OldOrNew(v, Next(v, s, l), op, archived)
  {
    hide ValidPair, LatestBackup, PreparingStep, InstallStep, RollbackStep, IsChosen;
    LaterStepsKeepBackups(v, s, l);
    SameBackupsSameChoice(v, s.disk, Next(v, s, l).disk, op);
    match s.task.phase
    case Undoing =>
    case Recovering =>
  }

  lemma NextKeepsOldOrNew(v: Verifier, s: State, l: Label, op: Operation, archived: seq<Ending>)
    requires Safe(v, s) && OldOrNew(v, s, op, archived) && !l.BeginInstall? && !l.BeginRollback?
    ensures OldOrNew(v, Next(v, s, l), op, archived)
  {
    match s.task
    case Idle(_, _) =>
      if s.disk.marker.Some? {
        ChosenIsRecoverySource(v, s.disk, op);
      }
    case Busy(phase, _, _) =>
      if phase.Applying? {
        ApplyingKeepsOldOrNew(v, s, l, op, archived);
      } else {
        RestoringKeepsOldOrNew(v, s, l, op, archived);
      }
  }

  predicate NoNewOperation(ls: seq<Label>) {
    forall l :: l in ls ==> !l.BeginInstall? && !l.BeginRollback?
  }

  /**
   From the moment an install or rollback has written its marker, whatever marker stood there before, through
   any crashes, exceptions and recoveries: while the marker stands recovery restores the pair the operation
   falls back to; once it is gone and nothing is in progress, the installed pair is the operation's target if
   the operation archived its marker, and otherwise the pair it falls back to.
   */
  lemma {:induction false} MarkedIsAllOrNothing(v: Verifier, s: State, ls: seq<Label>, op: Operation)
    requires Safe(v, s) && s.task == Busy(Applying, op, 0) && IsChosen(v, s.disk, op) && NoNewOperation(ls)
    ensures OldOrNew(v, Play(v, s, ls), op, s.disk.archive)
    ensures var e := Play(v, s, ls);
            && (e.disk.marker.Some? ==> RecoverySource(v, e.disk) == Some(op.backup)
                                        && BackupAt(e.disk, op.backup).files == op.undo)
            && (e.disk.marker.None? && e.task.Idle? ==>
                  e.disk.installed == if Committed(e.disk, op, s.disk.archive) then op.target else op.undo)
  {
    RunsAreSafe(v, s, ls);
    if ls != [] {
      var front := ls[..|ls| - 1];
      MarkedIsAllOrNothing(v, s, front, op);
      RunsAreSafe(v, s, front);
      assert ls[|ls| - 1] in ls;
      NextKeepsOldOrNew(v, Play(v, s, front), ls[|ls| - 1], op, s.disk.archive);
    }
    var d := Play(v, s, ls).disk;
    if d.marker.Some? {
      ChosenIsRecoverySource(v, d, op);
    }
  }

  /** Some state of the run is the one in which the operation has just written its marker. */
  ghost predicate IsMarked(v: Verifier, s: State, ls: seq<Label>) {
    exists n :: 0 <= n <= |ls| && Play(v, s, ls[..n]).task == Busy(Applying, s.task.op, 0)
  }

  /** The backup will be the one that recovery chooses: its name is safe, or nothing is newer. */
  ghost predicate WillBeChosen(v: Verifier, d: Disk, op: Operation) {
    SafeId(op.backup) || (if op.saves then NewerThanOthers(d, op.backup, op.at) else IsLatest(v, d, op.backup))
  }

  /** Before that: only backups differ, except that recoveries from an earlier marker may come in between. */
  ghost predicate NotYetMarked(v: Verifier, before: Disk, s: State, op: Operation) {
    match s.task
    case Busy(phase, op', _) =>
      if op'.kind.Recover? then before.marker.Some?
      else op' == op && phase.Preparing? && OnlyBackupsDiffer(before, s.disk) && WillBeChosen(v, s.disk, op)
    case Idle(_, _) => before.marker.None? ==> OnlyBackupsDiffer(before, s.disk)
  }

  lemma PreparingUntilMarked(v: Verifier, before: Disk, s: State, l: Label, op: Operation)
    requires Safe(v, s) && NotYetMarked(v, before, s, op) && s.task.Busy? && s.task.phase.Preparing?
    ensures var t := Next(v, s, l);
            if t.task == Busy(Applying, op, 0) then
              IsChosen(v, t.disk, op) && t.disk.archive == before.archive && t.disk.installed == before.installed
            else NotYetMarked(v, before, t, op)
  {
    var t := Next(v, s, l);
    assert StepAt(Preparing, op, s.task.pc) == PreparingStep(op, s.task.pc);
    NextKeepsSafe(v, s, l);
    if t.task == Busy(Applying, op, 0) && !SafeId(op.backup) {
      if op.saves {
        assert Newest(t.disk, op.backup);
        NewestIsLatest(v, t.disk, op.backup);
      } else {
        SameBackupsSameChoice(v, s.disk, t.disk, op);
      }
    }
  }

  lemma NextUntilMarked(v: Verifier, before: Disk, s: State, l: Label, op: Operation)
    requires Safe(v, s) && NotYetMarked(v, before, s, op) && !op.kind.Recover? && !l.BeginInstall? && !l.BeginRollback?
    ensures var t := Next(v, s, l);
            if t.task == Busy(Applying, op, 0) then
              IsChosen(v, t.disk, op) && t.disk.archive == before.archive && t.disk.installed == before.installed
            else NotYetMarked(v, before, t, op)
  {
    match s.task
    case Idle(_, _) =>
    case Busy(phase, _, _) => if phase.Preparing? { PreparingUntilMarked(v, before, s, l, op); }
  }

  lemma MarkedLonger(v: Verifier, s: State, ls: seq<Label>)
    requires ls != []
    ensures IsMarked(v, s, ls) <==> IsMarked(v, s, ls[..|ls| - 1]) || Play(v, s, ls).task == Busy(Applying, s.task.op, 0)
  {
    hide Play;
    var front := ls[..|ls| - 1];
    assert forall n :: 0 <= n <= |front| ==> ls[..n] == front[..n];
    assert ls[..|ls|] == ls;
    if n :| 0 <= n <= |front| && Play(v, s, front[..n]).task == Busy(Applying, s.task.op, 0) {
      assert Play(v, s, ls[..n]).task == Busy(Applying, s.task.op, 0);
    }
  }

  lemma {:induction false} TracksMark(v: Verifier, s: State, ls: seq<Label>, op: Operation, before: Disk)
    requires Safe(v, s) && s.task == Busy(Preparing, op, 0) && NotYetMarked(v, before, s, op) && NoNewOperation(ls)
    ensures IsMarked(v, s, ls) ==> OldOrNew(v, Play(v, s, ls), op, before.archive)
    ensures !IsMarked(v, s, ls) ==> NotYetMarked(v, before, Play(v, s, ls), op)
  {
    if ls == [] {
      assert ls[..0] == ls;
    } else {
      var front, l := ls[..|ls| - 1], ls[|ls| - 1];
      assert l in ls;
      TracksMark(v, s, front, op, before);
      MarkedLonger(v, s, ls);
      RunsAreSafe(v, s, front);
      NextKeepsSafe(v, Play(v, s, front), l);
      if IsMarked(v, s, front) {
        NextKeepsOldOrNew(v, Play(v, s, front), l, op, before.archive);
      } else {
        NextUntilMarked(v, before, Play(v, s, front), l, op);
      }
    }
  }

  /**
   An install or rollback is all or nothing through any crashes, exceptions and recoveries, if there was no
   marker when it began or once it has written its own.
   */
  lemma OperationIsAllOrNothing(v: Verifier, s0: State, l: Label, ls: seq<Label>, op: Operation)
    requires Safe(v, s0) && s0.task.Idle? && (l.BeginInstall? || l.BeginRollback?) && NoNewOperation(ls)
    requires Next(v, s0, l).task == Busy(Preparing, op, 0) && WillBeChosen(v, s0.disk, op)
    requires s0.disk.marker.None? || IsMarked(v, Next(v, s0, l), ls)
    ensures var e := Play(v, Next(v, s0, l), ls);
            && (e.disk.marker.Some? ==> RecoverySource(v, e.disk) == Some(op.backup)
                                        && BackupAt(e.disk, op.backup).files == op.undo)
            && (e.disk.marker.None? && e.task.Idle? ==>
                  e.disk.installed == if Committed(e.disk, op, s0.disk.archive) then op.target else op.undo)
  {
    var s1 := Next(v, s0, l);
    NextKeepsSafe(v, s0, l);
    TracksMark(v, s1, ls, op, s0.disk);
    RunsAreSafe(v, s1, ls);
    var e := Play(v, s1, ls);
    if e.disk.marker.Some? && IsMarked(v, s1, ls) {
      ChosenIsRecoverySource(v, e.disk, op);
    }
  }

  /** For an install: the candidate if it archived its marker, the pair from before it otherwise. */
  lemma InstallIsAllOrNothing(v: Verifier, s0: State, l: Label, ls: seq<Label>, op: Operation)
    requires Safe(v, s0) && s0.task.Idle? && l.BeginInstall? && NoNewOperation(ls)
    requires Next(v, s0, l).task == Busy(Preparing, op, 0) && WillBeChosen(v, s0.disk, op)
    requires s0.disk.marker.None? || IsMarked(v, Next(v, s0, l), ls)
    ensures var e := Play(v, Next(v, s0, l), ls);
            && (e.disk.marker.Some? ==> RecoverySource(v, e.disk).Some?
                                        && BackupAt(e.disk, RecoverySource(v, e.disk).value).files == s0.disk.installed)
            && (e.disk.marker.None? && e.task.Idle? ==>
                  e.disk.installed == if Committed(e.disk, op, s0.disk.archive) then s0.disk.staging[l.id] else s0.disk.installed)
  {
    OperationIsAllOrNothing(v, s0, l, ls, op);
  }

  /**
   For a rollback: the files of the backup that was latest if it archived its marker; otherwise the current pair if
   it was valid.
   */
  lemma RollbackIsAllOrNothing(v: Verifier, s0: State, l: Label, ls: seq<Label>, op: Operation)
    requires Safe(v, s0) && s0.task.Idle? && l.BeginRollback? && NoNewOperation(ls)
    requires Next(v, s0, l).task == Busy(Preparing, op, 0) && WillBeChosen(v, s0.disk, op)
    requires s0.disk.marker.None? || IsMarked(v, Next(v, s0, l), ls)
    ensures LatestBackup(v, s0.disk).Some?
    ensures var source := s0.disk.backups[LatestBackup(v, s0.disk).value].files;
            var saved := if ValidPair(v, s0.disk.installed) then s0.disk.installed else source;
            var e := Play(v, Next(v, s0, l), ls);
            && (e.disk.marker.Some? ==> RecoverySource(v, e.disk).Some?
                                        && BackupAt(e.disk, RecoverySource(v, e.disk).value).files == saved)
            && (e.disk.marker.None? && e.task.Idle? ==>
                  e.disk.installed == if Committed(e.disk, op, s0.disk.archive) then source else saved)
  {
    OperationIsAllOrNothing(v, s0, l, ls, op);
  }

  /* Operations begun beside an earlier marker */

  /** What an operation has done to the disk before its marker: only its own, new backup is there. */
  ghost predicate OnlyAdds(v: Verifier, before: Disk, s: State, op: Operation) {
    && OnlyBackupsDiffer(before, s.disk)
    && before.backups.Keys <= s.disk.backups.Keys <= before.backups.Keys + {op.backup}
    && (forall n :: n in before.backups ==> s.disk.backups[n] == before.backups[n])
    && match s.task
       case Idle(_, _) => true
       case Busy(phase, op', pc) => op' == op && phase.Preparing? && (op.saves && pc > 0 ==> op.backup !in before.backups)
  }

  lemma NextOnlyAdds(v: Verifier, before: Disk, s: State, l: Label, op: Operation)
    requires Safe(v, s) && OnlyAdds(v, before, s, op) && s.task.Busy?
    ensures var t := Next(v, s, l); t.task == Busy(Applying, op, 0) || OnlyAdds(v, before, t, op)
  {
    hide ValidPair, Restorable;
    assert StepAt(Preparing, op, s.task.pc) == PreparingStep(op, s.task.pc);
  }

  lemma {:induction false} UnmarkedOnlyAdds(v: Verifier, s: State, ls: seq<Label>, op: Operation)
    requires Safe(v, s) && s.task == Busy(Preparing, op, 0) && Progress(ls) && !IsMarked(v, s, ls)
    ensures OnlyAdds(v, s.disk, Play(v, s, ls), op)
  {
    if ls != [] {
      var front := ls[..|ls| - 1];
      MarkedLonger(v, s, ls);
      UnmarkedOnlyAdds(v, s, front, op);
      RunsAreSafe(v, s, front);
      ProgressKeepsOperation(v, s, front);
      if Play(v, s, front).task.Busy? {
        NextOnlyAdds(v, s.disk, Play(v, s, front), ls[|ls| - 1], op);
      } else {
        assert ls[|ls| - 1] in ls;
      }
    }
  }

  /** Recovery chooses the new backup only over an unsafe name, and only as the latest one. */
  ghost predicate NewIsChosen(v: Verifier, before: Disk, d: Disk, op: Operation)
    requires before.marker.Some? && before.marker.value.Marker?
  {
    !SafeId(before.marker.value.recovery) && IsLatest(v, d, op.backup)
  }

  lemma LatestIsKept(v: Verifier, before: Disk, s: State, op: Operation)
    requires OnlyAdds(v, before, s, op) && LatestBackup(v, before).Some? && !IsLatest(v, s.disk, op.backup)
    ensures LatestBackup(v, s.disk) == LatestBackup(v, before)
  {
    hide ValidPair;
    var d, earlier := s.disk, LatestBackup(v, before).value;
    assert Restorable(v, d, earlier);
    var latest := LatestBackup(v, d).value;
    assert latest in before.backups && Restorable(v, before, latest);
    forall m | Restorable(v, before, m) && m != latest ensures Older(before, m, latest) {
      assert Restorable(v, d, m) && Older(d, m, latest);
    }
    assert IsLatest(v, before, latest);
    LatestIsUnique(v, before, latest, earlier);
  }

  lemma SourceIsDetermined(v: Verifier, before: Disk, s: State, op: Operation)
    requires DiskSafe(v, before) && before.marker.Some? && OnlyAdds(v, before, s, op)
    ensures RecoverySource(v, before).Some?
    ensures RecoverySource(v, s.disk) ==
            if NewIsChosen(v, before, s.disk, op) then Some(op.backup) else RecoverySource(v, before)
    ensures BackupAt(s.disk, RecoverySource(v, before).value) == BackupAt(before, RecoverySource(v, before).value)
  {
    hide ValidPair, SafeId;
    var name := before.marker.value.recovery;
    assert Restorable(v, before, name) && Restorable(v, s.disk, name);
    if !SafeId(name) {
      assert LatestBackup(v, before).Some? && LatestBackup(v, before).value in before.backups;
      if IsLatest(v, s.disk, op.backup) {
        LatestIsUnique(v, s.disk, op.backup, LatestBackup(v, s.disk).value);
      } else {
        LatestIsKept(v, before, s, op);
      }
    }
  }

  /**
   Interrupted before it has written its own marker, an install or rollback begun beside an earlier one leaves
   the installed pair and that marker. Recovery then restores from the earlier marker's source as it was, except
   that the new backup is taken if the earlier one has no safe name and the new one is the latest; it restores
   the installed pair if and only if that source holds it.
   */
  lemma EarlierMarkerDecides(v: Verifier, s0: State, l: Label, ls: seq<Label>, op: Operation)
    requires Safe(v, s0) && s0.task.Idle? && (l.BeginInstall? || l.BeginRollback?) && s0.disk.marker.Some?
    requires Next(v, s0, l).task == Busy(Preparing, op, 0) && Progress(ls) && !IsMarked(v, Next(v, s0, l), ls)
    ensures var d := Play(v, Next(v, s0, l), ls).disk;
            var source := RecoverySource(v, s0.disk);
            && OnlyBackupsDiffer(s0.disk, d) && source.Some?
            && RecoverySource(v, d) == (if NewIsChosen(v, s0.disk, d, op) then Some(op.backup) else source)
            && (BackupAt(d, RecoverySource(v, d).value).files == s0.disk.installed <==>
                  if NewIsChosen(v, s0.disk, d, op) then d.backups[op.backup].files == s0.disk.installed
                  else BackupAt(s0.disk, source.value).files == s0.disk.installed)
  {
    var s1 := Next(v, s0, l);
    NextKeepsSafe(v, s0, l);
    UnmarkedOnlyAdds(v, s1, ls, op);
    SourceIsDetermined(v, s0.disk, Play(v, s1, ls), op);
  }

  /**
   An install that crashes in its first step beside an earlier marker with a safe name and other files: the
   recovery that follows replaces the valid pair that was installed by those files.
   */
  lemma EarlierMarkerIsRestored(v: Verifier, s0: State, l: Label)
    requires Safe(v, s0) && s0.task.Idle? && l.BeginInstall? && Next(v, s0, l).task.Busy?
    requires s0.disk.marker.Some? && SafeId(s0.disk.marker.value.recovery)
    requires BackupAt(s0.disk, s0.disk.marker.value.recovery).files != s0.disk.installed
    ensures var crashed := Play(v, Next(v, s0, l), [Crash(s0.disk)]);
            var e := Play(v, Next(v, crashed, BeginRecover), Steps(7));
            && crashed.disk == s0.disk && RecoverySource(v, crashed.disk) == Some(s0.disk.marker.value.recovery)
            && e.task.Idle? && e.disk.marker.None? && e.disk.installed != s0.disk.installed
            && ValidPair(v, s0.disk.installed)
  {
    var s1 := Next(v, s0, l);
    NextKeepsSafe(v, s0, l);
    var labels := [Crash(s0.disk)];
    assert labels[..|labels| - 1] == [] && Play(v, s1, []) == s1;
    assert StepAt(Preparing, s1.task.op, 0) == MakeBackupDir(s1.task.op.backup);
    var crashed := Play(v, s1, labels);
    assert crashed == Next(v, s1, Crash(s0.disk)) == State(s0.disk, Idle(Crashed, s1.task.op));
    RecoveryCompletes(v, crashed);
  }

  const OLD_PAIR := Pair(Some([0]), Some(Manifest("", "", true)))
  const NEW_PAIR := Pair(Some([1]), Some(Manifest("", "", true)))

  /** A disk on which that happens: the marker of an update whose undoing failed, and its candidate in place. */
  const UNDONE_BADLY :=
    Disk(NEW_PAIR, map["b" := Backup(Some(0), OLD_PAIR)], Some(Marker("b", Starting)), [], map["c" := NEW_PAIR], false, [])

  lemma SomeInstallIsNotAllOrNothing(v: Verifier, op: Operation, stamp: string, at: int)
    requires v([0], "") && v([1], "")
    ensures var s0 := State(UNDONE_BADLY, Idle(Crashed, op));
            var l := BeginInstall("c", stamp, at, true);
            && Safe(v, s0) && Next(v, s0, l).task.Busy? && SafeId("b")
            && BackupAt(s0.disk, "b").files != s0.disk.installed
  {
    assert IsAlnum("b"[0]) && IsAlnum("c"[0]);
    assert OLD_PAIR.binary.value[0] != NEW_PAIR.binary.value[0];
  }
}
