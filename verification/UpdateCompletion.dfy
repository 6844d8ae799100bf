/** What an operation in which no step fails leaves behind: the whole disk, not only the installed pair. */
module UpdateCompletion {
  import opened Wrappers
  import opened UpdateProtocol
  import opened UpdateRuns

  function Steps(n: nat): (ls: seq<Label>)
    ensures |ls| == n && Progress(ls)
  {
    seq(n, _ => Do)
  }

  /** One completed step. */
  lemma Does(v: Verifier, s: State, step: Step, n: nat, t: State)
    requires s.task.Busy? && StepAt(s.task.phase, s.task.op, s.task.pc) == step && CanDo(v, step, s.disk) && n > 0
    requires t == State(Apply(step, s.disk), AfterStep(s.task.phase, s.task.op, s.task.pc))
    ensures Play(v, s, Steps(n)) == Play(v, t, Steps(n - 1))
  {
    hide StepAt, CanDo, Apply, AfterStep;
    assert Steps(n) == Steps(1) + Steps(n - 1);
    PlayConcat(v, s, Steps(1), Steps(n - 1));
    assert Steps(1)[..0] == [] && Play(v, s, []) == s;
  }

  lemma StepsConcat(v: Verifier, s: State, m: nat, n: nat)
    ensures Play(v, s, Steps(m + n)) == Play(v, Play(v, s, Steps(m)), Steps(n))
  {
    assert Steps(m + n) == Steps(m) + Steps(n);
    PlayConcat(v, s, Steps(m), Steps(n));
  }

  lemma NoSteps(v: Verifier, s: State)
    ensures Play(v, s, Steps(0)) == s
  {
  }

  /** The disk after the pair `p` has been installed and started, and the marker archived. */
  function Finished(d: Disk, p: Pair, ending: Ending): Disk {
    d.(installed := p, running := true, launches := d.launches + [p], marker := None, archive := d.archive + [ending])
  }

  function WithBackup(d: Disk, name: string, at: int): Disk {
    d.(backups := d.backups[name := Backup(Some(at), d.installed)])
  }

  lemma BackupIsBegun(v: Verifier, s: State)
    requires s.task.Busy? && s.task.phase.Preparing? && s.task.pc == 0 && s.task.op.saves
    requires s.task.op.backup !in s.disk.backups && s.disk.installed.binary.Some?
    ensures Play(v, s, Steps(3))
         == State(s.disk.(backups := s.disk.backups[s.task.op.backup :=
                                       Backup(Some(s.task.op.at), Pair(s.disk.installed.binary, None))]),
                  Busy(Preparing, s.task.op, 3))
  {
    hide Next, Play, Steps, ValidPair, InstallStep, RollbackStep, RestoreStep;
    var d, op := s.disk, s.task.op;
    var n := op.backup;
    var s1 := State(d.(backups := d.backups[n := Backup(None, NO_FILES)]), Busy(Preparing, op, 1));
    var s2 := State(d.(backups := d.backups[n := Backup(Some(op.at), NO_FILES)]), Busy(Preparing, op, 2));
    var s3 := State(d.(backups := d.backups[n := Backup(Some(op.at), Pair(d.installed.binary, None))]), Busy(Preparing, op, 3));
    Does(v, s, MakeBackupDir(n), 3, s1);
    Does(v, s1, WriteRecord(n, op.at), 2, s2);
    Does(v, s2, SaveBinary(n), 1, s3);
    NoSteps(v, s3);
  }

  lemma ManifestIsSaved(v: Verifier, s: State, d: Disk)
    requires s.task.Busy? && s.task.phase.Preparing? && s.task.pc == 3 && s.task.op.saves && d.installed.manifest.Some?
    requires s.disk == d.(backups := d.backups[s.task.op.backup := Backup(Some(s.task.op.at), Pair(d.installed.binary, None))])
    ensures Play(v, s, Steps(1)) == State(WithBackup(d, s.task.op.backup, s.task.op.at), Busy(Preparing, s.task.op, 4))
  {
    hide Next, Play, Steps, ValidPair, InstallStep, RollbackStep, RestoreStep;
    var t := State(WithBackup(d, s.task.op.backup, s.task.op.at), Busy(Preparing, s.task.op, 4));
    Does(v, s, SaveManifest(s.task.op.backup), 1, t);
    NoSteps(v, t);
  }

  lemma BackupIsMarked(v: Verifier, s: State)
    requires s.task.Busy? && s.task.phase.Preparing? && s.task.pc == 4 && s.task.op.saves
    requires ValidPair(v, BackupAt(s.disk, s.task.op.backup).files)
    ensures var stage := if s.task.op.kind.Install? then Prepared else RollbackPrepared;
            Play(v, s, Steps(2)) == State(s.disk.(marker := Some(Marker(s.task.op.backup, stage))), Busy(Applying, s.task.op, 0))
  {
    hide Next, Play, Steps, ValidPair, InstallStep, RollbackStep, RestoreStep, BackupAt;
    var op := s.task.op;
    var stage := if op.kind.Install? then Prepared else RollbackPrepared;
    var s1 := s.(task := Busy(Preparing, op, 5));
    var s2 := State(s.disk.(marker := Some(Marker(op.backup, stage))), Busy(Applying, op, 0));
    Does(v, s, CheckBackup(op.backup), 2, s1);
    Does(v, s1, WriteMarker(op.backup, stage), 1, s2);
    NoSteps(v, s2);
  }

  lemma BackupCompletes(v: Verifier, s: State)
    requires s.task.Busy? && s.task.phase.Preparing? && s.task.pc == 0 && s.task.op.saves
    requires s.task.op.backup !in s.disk.backups && ValidPair(v, s.disk.installed)
    ensures var op := s.task.op;
            var stage := if op.kind.Install? then Prepared else RollbackPrepared;
            Play(v, s, Steps(6)) == State(WithBackup(s.disk, op.backup, op.at).(marker := Some(Marker(op.backup, stage))),
                                          Busy(Applying, op, 0))
  {
    hide Next, Play, Steps;
    StepsConcat(v, s, 3, 3);
    BackupIsBegun(v, s);
    var s3 := Play(v, s, Steps(3));
    StepsConcat(v, s3, 1, 2);
    ManifestIsSaved(v, s3, s.disk);
    BackupIsMarked(v, Play(v, s3, Steps(1)));
  }

  /** The file steps of an installation, with the marker written before and after each rename. */
  lemma BinaryIsReplaced(v: Verifier, s: State)
    requires s.task.Busy? && s.task.phase.Applying? && s.task.pc == 3 && s.task.op.kind.Install? && s.task.op.source.Staged?
    ensures Play(v, s, Steps(3))
         == State(s.disk.(installed := s.disk.installed.(binary := Files(s.disk, s.task.op.source).binary),
                          marker := Some(Marker(s.task.op.backup, BinaryReplaced))), Busy(Applying, s.task.op, 6))
  {
    hide Next, Play, Steps, ValidPair, PreparingStep, RollbackStep, RestoreStep;
    var d, op := s.disk, s.task.op;
    var s1 := State(d.(marker := Some(Marker(op.backup, ReplacingBinary))), Busy(Applying, op, 4));
    var s2 := State(s1.disk.(installed := d.installed.(binary := Files(d, op.source).binary)), Busy(Applying, op, 5));
    var s3 := State(s2.disk.(marker := Some(Marker(op.backup, BinaryReplaced))), Busy(Applying, op, 6));
    Does(v, s, WriteMarker(op.backup, ReplacingBinary), 3, s1);
    Does(v, s1, PlaceBinary(op.source), 2, s2);
    Does(v, s2, WriteMarker(op.backup, BinaryReplaced), 1, s3);
    NoSteps(v, s3);
  }

  lemma ManifestIsReplaced(v: Verifier, s: State)
    requires s.task.Busy? && s.task.phase.Applying? && s.task.pc == 6 && s.task.op.kind.Install? && s.task.op.source.Staged?
    ensures Play(v, s, Steps(3))
         == State(s.disk.(installed := s.disk.installed.(manifest := Files(s.disk, s.task.op.source).manifest),
                          marker := Some(Marker(s.task.op.backup, ReplacingManifest))), Busy(Applying, s.task.op, 9))
  {
    hide Next, Play, Steps, ValidPair, PreparingStep, RollbackStep, RestoreStep;
    var d, op := s.disk, s.task.op;
    var s1 := s.(task := Busy(Applying, op, 7));
    var s2 := State(d.(marker := Some(Marker(op.backup, ReplacingManifest))), Busy(Applying, op, 8));
    var s3 := State(s2.disk.(installed := d.installed.(manifest := Files(d, op.source).manifest)), Busy(Applying, op, 9));
    Does(v, s, CopyTemporary, 3, s1);
    Does(v, s1, WriteMarker(op.backup, ReplacingManifest), 2, s2);
    Does(v, s2, PlaceManifest(op.source), 1, s3);
    NoSteps(v, s3);
  }

  lemma SidecarIsStopped(v: Verifier, s: State)
    requires s.task.Busy? && s.task.phase.Applying? && s.task.pc == 0 && s.task.op.kind.Install?
    ensures Play(v, s, Steps(3))
         == State(s.disk.(running := false, marker := Some(Marker(s.task.op.backup, Stopped))), Busy(Applying, s.task.op, 3))
  {
    hide Next, Play, Steps, ValidPair, PreparingStep, RollbackStep, RestoreStep;
    var op := s.task.op;
    var s1 := State(s.disk.(running := false), Busy(Applying, op, 1));
    var s2 := State(s1.disk.(marker := Some(Marker(op.backup, Stopped))), Busy(Applying, op, 2));
    var s3 := s2.(task := Busy(Applying, op, 3));
    Does(v, s, Stop, 3, s1);
    Does(v, s1, WriteMarker(op.backup, Stopped), 2, s2);
    Does(v, s2, CopyTemporary, 1, s3);
    NoSteps(v, s3);
  }

  lemma SidecarIsStarted(v: Verifier, s: State)
    requires s.task.Busy? && s.task.phase.Applying? && s.task.pc == 9 && s.task.op.kind.Install?
    ensures Play(v, s, Steps(3)) == State(Finished(s.disk, s.disk.installed, EndInstalled), Idle(Installed, s.task.op))
  {
    hide Next, Play, Steps, ValidPair, PreparingStep, RollbackStep, RestoreStep;
    var d, op := s.disk, s.task.op;
    var s1 := State(d.(marker := Some(Marker(op.backup, Starting))), Busy(Applying, op, 10));
    var s2 := State(s1.disk.(running := true, launches := d.launches + [d.installed]), Busy(Applying, op, 11));
    var s3 := State(Finished(d, d.installed, EndInstalled), Idle(Installed, op));
    Does(v, s, WriteMarker(op.backup, Starting), 3, s1);
    Does(v, s1, Start, 2, s2);
    Does(v, s2, Archive(EndInstalled), 1, s3);
    NoSteps(v, s3);
  }

  lemma GuardedInstallCompletes(v: Verifier, s: State)
    requires s.task.Busy? && s.task.phase.Applying? && s.task.pc == 0 && s.task.op.kind.Install? && s.task.op.source.Staged?
    ensures Play(v, s, Steps(12)) == State(Finished(s.disk, Files(s.disk, s.task.op.source), EndInstalled), Idle(Installed, s.task.op))
  {
    hide Next, Play, Steps;
    var s3 := Play(v, s, Steps(3));
    var s6 := Play(v, s3, Steps(3));
    var s9 := Play(v, s6, Steps(3));
    StepsConcat(v, s, 3, 9);
    StepsConcat(v, s3, 3, 6);
    StepsConcat(v, s6, 3, 3);
    SidecarIsStopped(v, s);
    BinaryIsReplaced(v, s3);
    ManifestIsReplaced(v, s6);
    SidecarIsStarted(v, s9);
  }

  /** The steps of restoring stand at this point, wherever that is. */
  ghost predicate RestoresAt(s: State, from: Location) {
    && s.task.Busy? && !s.task.phase.Preparing? && s.task.pc + 5 < Length(s.task.phase, s.task.op) && from.Saved?
    && forall k :: 0 <= k < 5 ==> StepAt(s.task.phase, s.task.op, s.task.pc + k) == RestoreStep(from, EndRecovered, k)
  }

  lemma BackupIsCopied(v: Verifier, s: State, from: Location)
    requires RestoresAt(s, from) && IsComplete(Files(s.disk, from))
    ensures Play(v, s, Steps(3)) == State(s.disk, Busy(s.task.phase, s.task.op, s.task.pc + 3))
  {
    hide Next, Play, Steps, ValidPair, StepAt, Files;
    var Busy(phase, op, pc) := s.task;
    var s1 := State(s.disk, Busy(phase, op, pc + 1));
    var s2 := State(s.disk, Busy(phase, op, pc + 2));
    var s3 := State(s.disk, Busy(phase, op, pc + 3));
    assert StepAt(phase, op, pc + 0) == RestoreStep(from, EndRecovered, 0);
    assert StepAt(phase, op, pc + 1) == RestoreStep(from, EndRecovered, 1);
    assert StepAt(phase, op, pc + 2) == RestoreStep(from, EndRecovered, 2);
    Does(v, s, CheckComplete(from), 3, s1);
    Does(v, s1, CopyTemporary, 2, s2);
    Does(v, s2, CopyTemporary, 1, s3);
    NoSteps(v, s3);
  }

  lemma PairIsPlaced(v: Verifier, s: State, t: State, from: Location, p: Pair)
    requires RestoresAt(s, from) && p == Files(s.disk, from)
    requires t == State(s.disk, Busy(s.task.phase, s.task.op, s.task.pc + 3))
    ensures Play(v, t, Steps(2)) == State(s.disk.(installed := p), Busy(s.task.phase, s.task.op, s.task.pc + 5))
  {
    hide Next, Play, Steps, ValidPair, StepAt;
    var d := s.disk;
    var Busy(phase, op, pc) := s.task;
    var t1 := State(d.(installed := Pair(p.binary, d.installed.manifest)), Busy(phase, op, pc + 4));
    var t2 := State(d.(installed := p), Busy(phase, op, pc + 5));
    assert StepAt(phase, op, pc + 3) == RestoreStep(from, EndRecovered, 3);
    assert StepAt(phase, op, pc + 4) == RestoreStep(from, EndRecovered, 4);
    Does(v, t, PlaceBinary(from), 2, t1);
    Does(v, t1, PlaceManifest(from), 1, t2);
    NoSteps(v, t2);
  }

  /** The five steps that put the pair of a backup in place. */
  lemma RestoringAdvances(v: Verifier, s: State, from: Location, p: Pair)
    requires RestoresAt(s, from) && p == Files(s.disk, from) && IsComplete(p)
    ensures Play(v, s, Steps(5)) == State(s.disk.(installed := p), Busy(s.task.phase, s.task.op, s.task.pc + 5))
  {
    hide Next, Play, Steps, Files, RestoresAt;
    StepsConcat(v, s, 3, 2);
    BackupIsCopied(v, s, from);
    PairIsPlaced(v, s, Play(v, s, Steps(3)), from, p);
  }

  lemma RestoringIsMarked(v: Verifier, s: State)
    requires s.task.Busy? && s.task.phase.Applying? && s.task.pc == 0 && !s.task.op.kind.Install?
    ensures Play(v, s, Steps(2))
         == State(s.disk.(running := false, marker := Some(Marker(s.task.op.backup, RollbackStopped))), Busy(Applying, s.task.op, 2))
  {
    hide Next, Play, Steps, ValidPair, PreparingStep, InstallStep;
    var op := s.task.op;
    var s1 := State(s.disk.(running := false), Busy(Applying, op, 1));
    var s2 := State(s1.disk.(marker := Some(Marker(op.backup, RollbackStopped))), Busy(Applying, op, 2));
    Does(v, s, Stop, 2, s1);
    Does(v, s1, WriteMarker(op.backup, RollbackStopped), 1, s2);
    NoSteps(v, s2);
  }

  lemma RollbackIsStarted(v: Verifier, s: State)
    requires s.task.Busy? && s.task.phase.Applying? && s.task.pc == 7 && !s.task.op.kind.Install?
    ensures Play(v, s, Steps(3)) == State(Finished(s.disk, s.disk.installed, EndRollbackInstalled), Idle(RolledBack, s.task.op))
  {
    hide Next, Play, Steps, ValidPair, PreparingStep, InstallStep;
    var d, op := s.disk, s.task.op;
    var s1 := State(d.(marker := Some(Marker(op.backup, RollbackStarting))), Busy(Applying, op, 8));
    var s2 := State(s1.disk.(running := true, launches := d.launches + [d.installed]), Busy(Applying, op, 9));
    var s3 := State(Finished(d, d.installed, EndRollbackInstalled), Idle(RolledBack, op));
    Does(v, s, WriteMarker(op.backup, RollbackStarting), 3, s1);
    Does(v, s1, Start, 2, s2);
    Does(v, s2, Archive(EndRollbackInstalled), 1, s3);
    NoSteps(v, s3);
  }

  lemma GuardedRollbackCompletes(v: Verifier, s: State)
    requires s.task.Busy? && s.task.phase.Applying? && s.task.pc == 0 && !s.task.op.kind.Install? && s.task.op.source.Saved?
    requires IsComplete(Files(s.disk, s.task.op.source))
    ensures Play(v, s, Steps(10))
         == State(Finished(s.disk, Files(s.disk, s.task.op.source), EndRollbackInstalled), Idle(RolledBack, s.task.op))
  {
    hide Next, Play, Steps, ValidPair, PreparingStep, InstallStep;
    var source := s.task.op.source;
    var s2 := Play(v, s, Steps(2));
    var s7 := Play(v, s2, Steps(5));
    StepsConcat(v, s, 2, 8);
    StepsConcat(v, s2, 5, 3);
    RestoringIsMarked(v, s);
    RestoringAdvances(v, s2, source, Files(s.disk, source));
    RollbackIsStarted(v, s7);
  }

  /** Starting what was restored and archiving the marker: the end of a recovery and of an exception handler. */
  lemma RestoredIsStarted(v: Verifier, s: State, ending: Ending)
    requires s.task.Busy? && (s.task.phase.Undoing? || s.task.phase.Recovering?) && s.task.pc + 2 == Length(s.task.phase, s.task.op)
    requires s.disk.marker.Some?
    requires ending == if s.task.phase.Recovering? then EndRecovered
                       else if s.task.op.kind.Install? then EndRolledBack else EndRollbackRestored
    ensures Play(v, s, Steps(2)) == State(Finished(s.disk, s.disk.installed, ending), AfterStep(s.task.phase, s.task.op, s.task.pc + 1))
  {
    hide Next, Play, Steps, ValidPair;
    var d := s.disk;
    var Busy(phase, op, pc) := s.task;
    var s1 := State(d.(running := true, launches := d.launches + [d.installed]), Busy(phase, op, pc + 1));
    var s2 := State(Finished(d, d.installed, ending), AfterStep(phase, op, pc + 1));
    Does(v, s, Start, 2, s1);
    Does(v, s1, Archive(ending), 1, s2);
    NoSteps(v, s2);
  }

  /**
   An accepted candidate that is confirmed replaces a valid installed pair: the pair it replaces is kept as a new
   backup, the Sidecar runs the candidate, and the marker, whatever it was, is archived as an installation.
   */
  lemma InstallCompletes(v: Verifier, s: State, l: Label, candidate: Bytes, tag: ManifestFile, binary: Bytes, manifest: ManifestFile)
    requires s.task.Idle? && l.BeginInstall? && l.confirmed
    requires SafeId(l.id) && l.id in s.disk.staging && s.disk.staging[l.id] == Pair(Some(candidate), Some(tag))
    requires tag.Manifest? && tag.tested && v(candidate, tag.sha256)
    requires s.disk.installed == Pair(Some(binary), Some(manifest))
    requires manifest.Manifest? && manifest.tested && v(binary, manifest.sha256)
    requires manifest.version + "-" + l.stamp !in s.disk.backups
    ensures var e := Play(v, Next(v, s, l), Steps(18));
            && e.task.Idle? && e.task.report == Installed
            && e.disk == Finished(WithBackup(s.disk, manifest.version + "-" + l.stamp, l.at),
                                  Pair(Some(candidate), Some(tag)), EndInstalled)
  {
    hide SafeId, StepAt, CanDo, Apply;
    var s0 := Next(v, s, l);
    assert s0.task == Busy(Preparing, InstallOperation(s.disk, l.id, l.stamp, l.at), 0);
    StepsConcat(v, s0, 6, 12);
    BackupCompletes(v, s0);
    GuardedInstallCompletes(v, Play(v, s0, Steps(6)));
  }

  /**
   A confirmed rollback installs and starts the files of the latest backup; a valid installed pair is kept as a
   new backup first.
   */
  lemma RollbackCompletes(v: Verifier, s: State, l: Label)
    requires s.task.Idle? && l.BeginRollback? && l.confirmed && LatestBackup(v, s.disk).Some?
    requires ValidPair(v, s.disk.installed) ==>
               s.disk.installed.manifest.value.version + "-" + l.stamp !in s.disk.backups
    ensures var source := s.disk.backups[LatestBackup(v, s.disk).value].files;
            var saves := ValidPair(v, s.disk.installed);
            var e := Play(v, Next(v, s, l), Steps(if saves then 16 else 11));
            && e.task.Idle? && e.task.report == RolledBack
            && e.disk == Finished(if saves then WithBackup(s.disk, s.disk.installed.manifest.value.version + "-" + l.stamp, l.at)
                                  else s.disk,
                                  source, EndRollbackInstalled)
  {
    hide StepAt, CanDo, Apply;
    var latest := LatestBackup(v, s.disk).value;
    var s0 := Next(v, s, l);
    if ValidPair(v, s.disk.installed) {
      StepsConcat(v, s0, 6, 10);
      BackupCompletes(v, s0);
      GuardedRollbackCompletes(v, Play(v, s0, Steps(6)));
    } else {
      RollbackIsMarked(v, s0);
      StepsConcat(v, s0, 1, 10);
      GuardedRollbackCompletes(v, Play(v, s0, Steps(1)));
    }
  }

  lemma RollbackIsMarked(v: Verifier, s: State)
    requires s.task.Busy? && s.task.phase.Preparing? && s.task.pc == 0 && !s.task.op.saves && s.task.op.kind.Rollback?
    ensures Play(v, s, Steps(1)) == State(s.disk.(marker := Some(Marker(s.task.op.backup, RollbackPrepared))),
                                          Busy(Applying, s.task.op, 0))
  {
    hide Next, Play, Steps;
    var op := s.task.op;
    var s1 := State(s.disk.(marker := Some(Marker(op.backup, RollbackPrepared))), Busy(Applying, op, 0));
    Does(v, s, WriteMarker(op.backup, RollbackPrepared), 1, s1);
    NoSteps(v, s1);
  }

  lemma RecoveringCompletes(v: Verifier, s: State)
    requires s.task.Busy? && s.task.phase.Recovering? && s.task.pc == 0 && s.task.op.source.Saved?
    requires s.disk.marker.Some? && IsComplete(Files(s.disk, s.task.op.source))
    ensures Play(v, s, Steps(7)) == State(Finished(s.disk, Files(s.disk, s.task.op.source), EndRecovered), Idle(RolledBack, s.task.op))
  {
    hide Next, Play, Steps, ValidPair, Files;
    var source := s.task.op.source;
    StepsConcat(v, s, 5, 2);
    RestoringAdvances(v, s, source, Files(s.disk, source));
    RestoredIsStarted(v, Play(v, s, Steps(5)), EndRecovered);
  }

  /** In a safe state with a marker a recovery restores and starts its source, and archives the marker. */
  lemma RecoveryCompletes(v: Verifier, s: State)
    requires Safe(v, s) && s.task.Idle? && s.disk.marker.Some?
    ensures RecoverySource(v, s.disk).Some?
    ensures var e := Play(v, Next(v, s, BeginRecover), Steps(7));
            && e.task.Idle? && e.task.report == RolledBack
            && e.disk == Finished(s.disk, BackupAt(s.disk, RecoverySource(v, s.disk).value).files, EndRecovered)
  {
    hide CanDo, Apply, StepAt, Steps, Finished, Interrupted, PhaseSafe, OperationSafe, ReportTrue, RecoverySource, MarkerUsable, SafeId;
    RunsAreSafe(v, s, []);
    RecoveringCompletes(v, Next(v, s, BeginRecover));
  }

  lemma UndoingCompletes(v: Verifier, s: State, p: Pair)
    requires s.task.Busy? && s.task.phase.Undoing? && s.task.pc == 0 && s.disk.marker.Some?
    requires p == BackupAt(s.disk, s.task.op.backup).files && IsComplete(p)
    ensures var op := s.task.op;
            Play(v, s, Steps(9)) == State(Finished(s.disk, p, if op.kind.Install? then EndRolledBack else EndRollbackRestored),
                                          Idle(if op.kind.Install? then RolledBack else FailedSafely, op))
  {
    hide Next, Play, Steps, ValidPair, BackupAt;
    var op := s.task.op;
    StoppedAndCaptured(v, s);
    StepsConcat(v, s, 2, 7);
    var s2 := Play(v, s, Steps(2));
    StepsConcat(v, s2, 5, 2);
    assert s2.disk == s.disk.(running := false);
    SameBackupsSameFiles(s.disk, s2.disk, op.backup);
    RestoringAdvances(v, s2, Saved(op.backup), p);
    RestoredIsStarted(v, Play(v, s2, Steps(5)), if op.kind.Install? then EndRolledBack else EndRollbackRestored);
  }

  lemma SameBackupsSameFiles(d: Disk, e: Disk, name: string)
    requires d.backups == e.backups
    ensures BackupAt(d, name) == BackupAt(e, name)
  {
  }

  /**
   Whichever step of the guarded block raises, and whatever it leaves behind, an exception handler in which nothing
   fails puts back the pair the operation falls back to, starts it and archives the marker.
   */
  lemma FailureIsUndone(v: Verifier, s: State, after: Disk)
    requires Safe(v, s) && s.task.Busy? && s.task.phase.Applying?
    requires Interrupted(StepAt(Applying, s.task.op, s.task.pc), s.disk, after)
    ensures var e := Play(v, Next(v, s, Raise(after)), Steps(9));
            && e.task == Idle(if s.task.op.kind.Install? then RolledBack else FailedSafely, s.task.op)
            && e.disk == Finished(after, s.task.op.undo,
                                  if s.task.op.kind.Install? then EndRolledBack else EndRollbackRestored)
  {
    hide CanDo, Apply, StepAt, Steps, Finished, Interrupted;
    InterruptedKeepsFiles(v, s, after);
    UndoingCompletes(v, Next(v, s, Raise(after)), s.task.op.undo);
  }

  lemma StoppedAndCaptured(v: Verifier, s: State)
    requires s.task.Busy? && s.task.phase.Undoing? && s.task.pc == 0
    ensures Play(v, s, Steps(2)) == State(s.disk.(running := false), Busy(Undoing, s.task.op, 2))
  {
    hide Next, Play, Steps;
    var op := s.task.op;
    var s1 := State(s.disk.(running := false), Busy(Undoing, op, 1));
    var s2 := s1.(task := Busy(Undoing, op, 2));
    Does(v, s, StopQuietly, 2, s1);
    Does(v, s1, CaptureFailed, 1, s2);
    NoSteps(v, s2);
  }

  /** What is installed was confirmed, has a name without a path in it, was tested and matches its own checksum. */
  lemma InstalledIsVerified(v: Verifier, s: State, l: Label, ls: seq<Label>)
    requires Safe(v, s) && s.task.Idle? && l.BeginInstall? && Progress(ls)
    requires Play(v, Next(v, s, l), ls).task.Idle? && Play(v, Next(v, s, l), ls).task.report.Installed?
    ensures l.confirmed && l.id in s.disk.staging && Play(v, Next(v, s, l), ls).disk.installed == s.disk.staging[l.id]
    ensures 1 <= |l.id| <= 128 && l.id[0] != '.' && forall i :: 0 <= i < |l.id| ==> l.id[i] !in "/\\:" && ' ' < l.id[i] <= 'z'
    ensures var p := s.disk.staging[l.id];
            && p.binary.Some? && p.manifest.Some? && p.manifest.value.Manifest?
            && p.manifest.value.tested && v(p.binary.value, p.manifest.value.sha256)
  {
    InstallReportsTruly(v, s, l, ls);
    ProgressKeepsOperation(v, Next(v, s, l), ls);
  }

  /** In every run the Sidecar is only started on a tested pair whose binary matches the checksum beside it. */
  lemma OnlyVerifiedPairsStart(v: Verifier, s: State, ls: seq<Label>, p: Pair)
    requires Safe(v, s) && p in Play(v, s, ls).disk.launches
    ensures p.binary.Some? && p.manifest.Some? && p.manifest.value.Manifest?
    ensures p.manifest.value.tested && v(p.binary.value, p.manifest.value.sha256)
  {
    RunsAreSafe(v, s, ls);
  }

  /**
   The failures that are reckoned with: any step may do nothing, a copy may leave any content, and a start or stop
   the Sidecar running or not.
   */
  lemma WhatMayBeLeft(step: Step, d: Disk, name: string, binary: Option<Bytes>, manifest: Option<ManifestFile>, running: bool)
    requires name in d.backups
    ensures Interrupted(step, d, d)
    ensures var b := d.backups[name];
            && Interrupted(SaveBinary(name), d, d.(backups := d.backups[name := b.(files := b.files.(binary := binary))]))
            && Interrupted(SaveManifest(name), d, d.(backups := d.backups[name := b.(files := b.files.(manifest := manifest))]))
    ensures Interrupted(Stop, d, d.(running := running)) && Interrupted(StopQuietly, d, d.(running := running))
    ensures Interrupted(Start, d, d.(running := running))
    ensures Interrupted(Start, d, d.(running := running, launches := d.launches + [d.installed]))
  {
  }

  /** A crash ends the operation wherever it is, and so does an exception before the guarded block and in a handler. */
  lemma AnyStepMayFail(v: Verifier, s: State, after: Disk)
    requires s.task.Busy? && Interrupted(StepAt(s.task.phase, s.task.op, s.task.pc), s.disk, after)
    ensures Next(v, s, Crash(after)) == State(after, Idle(Crashed, s.task.op))
    ensures s.task.phase.Preparing? ==> Next(v, s, Raise(after)) == State(after, Idle(Refused, s.task.op))
    ensures s.task.phase.Recovering? || (s.task.phase.Undoing? && s.task.pc > 0) ==>
              Next(v, s, Raise(after)) == State(after, Idle(FailedSafely, s.task.op))
    ensures s.task.phase.Undoing? && s.task.pc == 0 ==> Next(v, s, Raise(after)) == State(after, Busy(Undoing, s.task.op, 1))
  {
  }

  /** What cannot be done, so that the step can only raise. */
  lemma WhatCannotBeDone(v: Verifier, s: State, step: Step)
    requires s.task.Busy? && StepAt(s.task.phase, s.task.op, s.task.pc) == step
    requires match step
             case MakeBackupDir(name) => name in s.disk.backups
             case SaveBinary(_) => s.disk.installed.binary.None?
             case SaveManifest(_) => s.disk.installed.manifest.None?
             case CheckBackup(name) => !ValidPair(v, BackupAt(s.disk, name).files)
             case CheckComplete(from) => Files(s.disk, from).binary.None? || Files(s.disk, from).manifest.None?
             case _ => false
    ensures Next(v, s, Do) == s
  {
  }

  /**
   Recovery uses the backup in the marker whenever its name is safe and its files match, and in every case only
   files that match.
   */
  lemma SourceIsValid(v: Verifier, d: Disk)
    ensures RecoverySource(v, d).Some? ==>
              RecoverySource(v, d).value in d.backups && ValidPair(v, d.backups[RecoverySource(v, d).value].files)
    ensures forall name, stage ::
              d.marker == Some(Marker(name, stage)) && SafeId(name) && name in d.backups && ValidPair(v, d.backups[name].files) ==>
                RecoverySource(v, d) == Some(name)
  {
  }

  /** The backup of a version made of letters, digits and dots has a name that recovery takes from the marker. */
  lemma NumberedBackupIsSafe(version: string, stamp: string)
    requires version != [] && version[0] != '.'
    requires forall i :: 0 <= i < |version| ==>
               'a' <= version[i] <= 'z' || 'A' <= version[i] <= 'Z' || '0' <= version[i] <= '9' || version[i] == '.'
    requires forall i :: 0 <= i < |stamp| ==> '0' <= stamp[i] <= '9' || stamp[i] in "TZ"
    requires |version| + |stamp| < 128
    ensures SafeId(BackupName(version, stamp)) && BackupName(version, stamp)[|version|] == '-'
  {
    var name := BackupName(version, stamp);
    forall i | 0 <= i < |name| ensures IsAlnum(name[i]) || name[i] in "._-" {
      assert i < |version| ==> name[i] == version[i];
      assert i > |version| ==> name[i] == stamp[i - |version| - 1];
    }
  }

  /** When an operation does not begin, and what it answers: nothing on the disk changes. */
  lemma NotBegun(v: Verifier, s: State, l: Label)
    requires s.task.Idle? && IsBegin(l)
    ensures Next(v, s, l).disk == s.disk
    ensures l.BeginInstall? && !l.confirmed ==>
              Next(v, s, l).task.Idle? && Next(v, s, l).task.report == if CandidateAccepted(v, s.disk, l.id) then Cancelled else Refused
    ensures l.BeginInstall? && l.confirmed ==>
              (Next(v, s, l).task.Busy? <==> CandidateAccepted(v, s.disk, l.id) && ValidPair(v, s.disk.installed))
    ensures l.BeginRollback? && !l.confirmed ==>
              && Next(v, s, l).task.Idle?
              && Next(v, s, l).task.report == if exists n :: Restorable(v, s.disk, n) then Cancelled else NoBackup
    ensures l.BeginRollback? && l.confirmed ==> (Next(v, s, l).task.Busy? <==> exists n :: Restorable(v, s.disk, n))
    ensures l.BeginRecover? ==>
              (Next(v, s, l).task.Busy? <==> (s.disk.marker.Some? || !ValidPair(v, s.disk.installed)) && RecoverySource(v, s.disk).Some?)
  {
  }
}
