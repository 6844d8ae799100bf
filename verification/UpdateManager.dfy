/** The update manager: the methods that take the steps of `UpdateProtocol` on the files. */
module UpdateManager {
  import opened Wrappers
  import opened UpdateProtocol
  import opened UpdateRuns

  /** How a step ended; `Killed` also stands for a cancellation, which no handler catches. */
  datatype Fate = Done | Raised | Killed {
    predicate IsFailure() {
      !Done?
    }

    function PropagateFailure(): Fate
      requires !Done?
    {
      this
    }
  }

  function TaskAfter(t: Task, fate: Fate): Task
    requires t.Busy?
  {
    match fate
    case Done => AfterStep(t.phase, t.op, t.pc)
    case Raised => AfterRaise(t.phase, t.op, t.pc)
    case Killed => Idle(Crashed, t.op)
  }

  function FateLabel(fate: Fate, after: Disk): Label {
    match fate
    case Done => Do
    case Raised => Raise(after)
    case Killed => Crash(after)
  }

  const NO_OPERATION := Operation(Recover, Saved(""), NO_FILES, "", NO_FILES, false, 0, NO_FILES)

  /** The installed pair is valid and there is no backup yet under the name it would get. */
  predicate CanSave(v: Verifier, d: Disk, stamp: string) {
    ValidPair(v, d.installed) && d.installed.manifest.value.version + "-" + stamp !in d.backups
  }

  class SidecarUpdateManager {
    const verifier: Verifier
    // The file system and the Sidecar process as the manager finds them.
    var files: Disk
    // The state the manager was created in, the labels up to the beginning of the current operation, and since.
    ghost const start: State
    ghost var history: seq<Label>
    ghost var steps: seq<Label>
    ghost var task: Task
    // Nothing in the environment has made a step of the current operation fail.
    ghost var smooth: bool

    ghost function Contents(): State
      reads this
    {
      State(files, task)
    }

    ghost predicate Valid()
      reads this
    {
      Contents() == Play(verifier, Play(verifier, start, history), steps) && Progress(steps)
    }

    ghost predicate At(step: Step)
      reads this
    {
      Valid() && task.Busy? && StepAt(task.phase, task.op, task.pc) == step
    }

    constructor (verifier: Verifier, files: Disk)
      ensures Valid() && Contents() == State(files, Idle(Unused, NO_OPERATION)) && history == steps == []
      ensures start == Contents() && this.verifier == verifier
    {
      this.verifier, this.files := verifier, files;
      task, history, steps, smooth := Idle(Unused, NO_OPERATION), [], [], true;
      start := State(files, Idle(Unused, NO_OPERATION));
    }

    /** The environment decides how a step ends; a step that the environment lets through can still raise. */
    method Outcome() returns (fate: Fate)
      modifies this`smooth
      ensures smooth <==> old(smooth) && fate.Done?
    {
      fate := *;
      smooth := smooth && fate.Done?;
    }

    ghost method Log(fate: Fate, before: State)
      requires before.task.Busy? && before == Play(verifier, Play(verifier, start, history), steps) && Progress(steps)
      requires files == Next(verifier, before, FateLabel(fate, files)).disk
      requires TaskAfter(before.task, fate) == Next(verifier, before, FateLabel(fate, files)).task
      modifies this`task, this`steps
      ensures Valid() && task == TaskAfter(before.task, fate)
    {
      hide Next, TaskAfter;
      steps, task := steps + [FateLabel(fate, files)], TaskAfter(before.task, fate);
      assert steps[..|steps| - 1] == old(steps);
    }

    /* File steps */

    method MakeBackupDir(name: string) returns (fate: Fate)
      requires At(Step.MakeBackupDir(name))
      modifies this
      ensures history == old(history) && files == old(files).(backups := files.backups)
      ensures Valid() && task == TaskAfter(old(task), fate)
      ensures smooth ==> old(smooth) && (name !in old(files).backups ==> fate.Done?)
      ensures fate.Done? ==> files == Apply(Step.MakeBackupDir(name), old(files))
      ensures fate.Done? ==> name !in old(files).backups
    {
      hide Play, StepAt, AfterStep, AfterRaise, ValidPair;
      ghost var before := Contents();
      fate := Outcome();
      if name in files.backups && fate.Done? {
        fate := Raised;
      }
      if fate.Done? {
        files := files.(backups := files.backups[name := Backup(None, NO_FILES)]);
      }
      Log(fate, before);
    }

    method WriteRecord(name: string, at: int) returns (fate: Fate)
      requires At(Step.WriteRecord(name, at))
      modifies this
      ensures history == old(history) && files == old(files).(backups := files.backups)
      ensures Valid() && task == TaskAfter(old(task), fate)
      ensures smooth ==> old(smooth) && fate.Done?
      ensures fate.Done? ==> files == Apply(Step.WriteRecord(name, at), old(files))
    {
      hide Play, StepAt, AfterStep, AfterRaise, ValidPair;
      ghost var before := Contents();
      fate := Outcome();
      if fate.Done? {
        files := files.(backups := files.backups[name := BackupAt(files, name).(createdAt := Some(at))]);
      }
      Log(fate, before);
    }

    /** A copy that does not complete may leave any content behind, or none. */
    method SaveBinary(name: string) returns (fate: Fate)
      requires At(Step.SaveBinary(name))
      modifies this
      ensures history == old(history) && files == old(files).(backups := files.backups)
      ensures Valid() && task == TaskAfter(old(task), fate)
      ensures smooth ==> old(smooth) && (old(files).installed.binary.Some? ==> fate.Done?)
      ensures fate.Done? ==> files == Apply(Step.SaveBinary(name), old(files))
    {
      hide Play, StepAt, AfterStep, AfterRaise, ValidPair;
      ghost var before := Contents();
      fate := Outcome();
      var saved := BackupAt(files, name);
      if files.installed.binary.None? {
        fate := if fate.Done? then Raised else fate;
      } else if fate.Done? {
        var copied := saved.(files := saved.files.(binary := files.installed.binary));
        files := files.(backups := files.backups[name := copied]);
      } else if name in files.backups {
        var content: Option<Bytes> := *;
        var torn := saved.(files := saved.files.(binary := content));
        files := files.(backups := files.backups[name := torn]);
      }
      Log(fate, before);
    }

    method SaveManifest(name: string) returns (fate: Fate)
      requires At(Step.SaveManifest(name))
      modifies this
      ensures history == old(history) && files == old(files).(backups := files.backups)
      ensures Valid() && task == TaskAfter(old(task), fate)
      ensures smooth ==> old(smooth) && (old(files).installed.manifest.Some? ==> fate.Done?)
      ensures fate.Done? ==> files == Apply(Step.SaveManifest(name), old(files))
    {
      hide Play, StepAt, AfterStep, AfterRaise, ValidPair;
      ghost var before := Contents();
      fate := Outcome();
      var saved := BackupAt(files, name);
      if files.installed.manifest.None? {
        fate := if fate.Done? then Raised else fate;
      } else if fate.Done? {
        var copied := saved.(files := saved.files.(manifest := files.installed.manifest));
        files := files.(backups := files.backups[name := copied]);
      } else if name in files.backups {
        var content: Option<ManifestFile> := *;
        var torn := saved.(files := saved.files.(manifest := content));
        files := files.(backups := files.backups[name := torn]);
      }
      Log(fate, before);
    }

    method CheckBackup(name: string) returns (fate: Fate)
      requires At(Step.CheckBackup(name))
      modifies this
      ensures history == old(history) && files == old(files)
      ensures Valid() && task == TaskAfter(old(task), fate)
      ensures smooth ==> old(smooth) && (ValidPair(verifier, BackupAt(files, name).files) ==> fate.Done?)
    {
      hide Play, StepAt, AfterStep, AfterRaise, ValidPair;
      ghost var before := Contents();
      fate := Outcome();
      if fate.Done? && !ValidPair(verifier, BackupAt(files, name).files) {
        fate := Raised;
      }
      Log(fate, before);
    }

    method WriteTransaction(recovery: string, stage: Stage) returns (fate: Fate)
      requires At(WriteMarker(recovery, stage))
      modifies this
      ensures history == old(history) && files == old(files).(marker := files.marker)
      ensures !fate.Done? ==> files == old(files)
      ensures Valid() && task == TaskAfter(old(task), fate)
      ensures smooth ==> old(smooth) && fate.Done?
    {
      hide Play, StepAt, AfterStep, AfterRaise, ValidPair;
      ghost var before := Contents();
      fate := Outcome();
      if fate.Done? {
        files := files.(marker := Some(Marker(recovery, stage)));
      }
      Log(fate, before);
    }

    method StopSidecar() returns (fate: Fate)
      requires At(Stop) || At(StopQuietly)
      modifies this
      ensures history == old(history) && files == old(files).(running := files.running)
      ensures Valid() && task == TaskAfter(old(task), fate)
      ensures smooth ==> old(smooth) && fate.Done?
    {
      hide Play, StepAt, AfterStep, AfterRaise, ValidPair;
      ghost var before := Contents();
      fate := Outcome();
      var running: bool := *;
      files := files.(running := running && !fate.Done?);
      Log(fate, before);
    }

    /** Starts whatever pair is installed and waits for it to be ready; a failed start may have launched it. */
    method StartRunning() returns (fate: Fate)
      requires At(Start)
      modifies this
      ensures history == old(history) && files == old(files).(running := files.running, launches := files.launches)
      ensures Valid() && task == TaskAfter(old(task), fate)
      ensures smooth ==> old(smooth) && fate.Done?
    {
      hide Play, StepAt, AfterStep, AfterRaise, ValidPair;
      ghost var before := Contents();
      fate := Outcome();
      var running: bool, launched: bool := *, *;
      if launched || fate.Done? {
        files := files.(launches := files.launches + [files.installed]);
      }
      files := files.(running := running || fate.Done?);
      Log(fate, before);
    }

    method CaptureFailedFiles() returns (fate: Fate)
      requires At(CaptureFailed)
      modifies this
      ensures history == old(history) && files == old(files)
      ensures Valid() && task == TaskAfter(old(task), fate)
      ensures smooth ==> old(smooth) && fate.Done?
    {
      hide Play, StepAt, AfterStep, AfterRaise, ValidPair;
      ghost var before := Contents();
      fate := Outcome();
      Log(fate, before);
    }

    method CopyTemporaryFile() returns (fate: Fate)
      requires At(CopyTemporary)
      modifies this
      ensures history == old(history) && files == old(files)
      ensures Valid() && task == TaskAfter(old(task), fate)
      ensures smooth ==> old(smooth) && fate.Done?
    {
      hide Play, StepAt, AfterStep, AfterRaise, ValidPair;
      ghost var before := Contents();
      fate := Outcome();
      Log(fate, before);
    }

    method CheckSource(from: Location) returns (fate: Fate)
      requires At(CheckComplete(from))
      modifies this
      ensures history == old(history) && files == old(files)
      ensures Valid() && task == TaskAfter(old(task), fate)
      ensures smooth ==> old(smooth) && (IsComplete(Files(files, from)) ==> fate.Done?)
    {
      hide Play, StepAt, AfterStep, AfterRaise, ValidPair;
      ghost var before := Contents();
      fate := Outcome();
      if fate.Done? && (Files(files, from).binary.None? || Files(files, from).manifest.None?) {
        fate := Raised;
      }
      Log(fate, before);
    }

    method ReplaceBinary(from: Location) returns (fate: Fate)
      requires At(PlaceBinary(from))
      modifies this
      ensures history == old(history) && files == old(files).(installed := files.installed)
      ensures Valid() && task == TaskAfter(old(task), fate)
      ensures smooth ==> old(smooth) && fate.Done?
    {
      hide Play, StepAt, AfterStep, AfterRaise, ValidPair;
      ghost var before := Contents();
      fate := Outcome();
      if fate.Done? {
        files := files.(installed := files.installed.(binary := Files(files, from).binary));
      }
      Log(fate, before);
    }

    method ReplaceManifest(from: Location) returns (fate: Fate)
      requires At(PlaceManifest(from))
      modifies this
      ensures history == old(history) && files == old(files).(installed := files.installed)
      ensures Valid() && task == TaskAfter(old(task), fate)
      ensures smooth ==> old(smooth) && fate.Done?
    {
      hide Play, StepAt, AfterStep, AfterRaise, ValidPair;
      ghost var before := Contents();
      fate := Outcome();
      if fate.Done? {
        files := files.(installed := files.installed.(manifest := Files(files, from).manifest));
      }
      Log(fate, before);
    }

    method ArchiveTransaction(ending: Ending) returns (fate: Fate)
      requires At(Archive(ending))
      modifies this
      ensures history == old(history) && files == old(files).(marker := files.marker, archive := files.archive)
      ensures Valid() && task == TaskAfter(old(task), fate)
      ensures smooth ==> old(smooth) && fate.Done?
    {
      hide Play, StepAt, AfterStep, AfterRaise, ValidPair;
      ghost var before := Contents();
      fate := Outcome();
      if fate.Done? && files.marker.Some? {
        files := files.(marker := None, archive := files.archive + [ending]);
      }
      Log(fate, before);
    }

    /* Operations */

    /** A new directory for a backup, with its record. */
    method CreateBackup(name: string, at: int) returns (fate: Fate)
      requires Valid() && task.Busy? && task.phase.Preparing? && task.pc == 0
      requires task.op.saves && task.op.backup == name && task.op.at == at
      modifies this
      ensures history == old(history) && files == old(files).(backups := files.backups)
      ensures Valid()
      ensures smooth ==> old(smooth) && (name !in old(files).backups ==> fate.Done?)
      ensures fate.Done? ==> name !in old(files).backups && files.backups == old(files).backups[name := Backup(Some(at), NO_FILES)]
      ensures fate.Done? ==> task == Busy(Preparing, old(task).op, 2)
      ensures fate.Raised? ==> task == Idle(Refused, old(task).op)
      ensures fate.Killed? ==> task == Idle(Crashed, old(task).op)
    {
      hide Play, InstallStep, RollbackStep, RestoreStep, Progress, ValidPair;
      fate := MakeBackupDir(name);
      if !fate.Done? {
        return;
      }
      fate := WriteRecord(name, at);
    }

    method BackupCurrent(name: string, at: int) returns (fate: Fate)
      requires Valid() && task.Busy? && task.phase.Preparing? && task.pc == 0
      requires task.op.saves && task.op.backup == name && task.op.at == at
      modifies this
      ensures history == old(history) && files == old(files).(backups := files.backups)
      ensures Valid()
      ensures smooth ==> old(smooth) && (name !in old(files).backups && ValidPair(verifier, old(files).installed) ==> fate.Done?)
      ensures fate.Done? ==> forall n :: n in old(files).backups ==> n in files.backups && files.backups[n] == old(files).backups[n]
      ensures fate.Done? ==> task == Busy(Preparing, old(task).op, 5)
      ensures fate.Raised? ==> task == Idle(Refused, old(task).op)
      ensures fate.Killed? ==> task == Idle(Crashed, old(task).op)
    {
      hide Play, InstallStep, RollbackStep, RestoreStep, Progress;
      fate := CreateBackup(name, at);
      if !fate.Done? {
        return;
      }
      :- SaveBinary(name);
      :- SaveManifest(name);
      fate := CheckBackup(name);
    }

    /** Everything before the guarded block; only backups change unless it completes. */
    method Prepare(name: string, at: int, stage: Stage) returns (fate: Fate)
      requires Valid() && task.Busy? && task.phase.Preparing? && task.pc == 0
      requires task.op.saves && task.op.backup == name && task.op.at == at
      requires stage == if task.op.kind.Install? then Prepared else RollbackPrepared
      modifies this
      ensures history == old(history) && (!fate.Done? ==> files == old(files).(backups := files.backups))
      ensures Valid()
      ensures smooth ==> old(smooth) && (name !in old(files).backups && ValidPair(verifier, old(files).installed) ==> fate.Done?)
      ensures fate.Done? ==> forall n :: n in old(files).backups ==> n in files.backups && files.backups[n] == old(files).backups[n]
      ensures fate.Done? ==> task == Busy(Applying, old(task).op, 0)
      ensures fate.Raised? ==> task == Idle(Refused, old(task).op)
      ensures fate.Killed? ==> task == Idle(Crashed, old(task).op)
    {
      fate := BackupCurrent(name, at);
      if !fate.Done? {
        return;
      }
      fate := WriteTransaction(name, stage);
    }

    ghost predicate AboutToRestore(from: Location)
      reads this
    {
      && Valid() && task.Busy? && !task.phase.Preparing? && task.pc + 5 < Length(task.phase, task.op)
      && (task.phase.Undoing? ==> task.pc > 0)
      && forall k :: 0 <= k < 5 ==> StepAt(task.phase, task.op, task.pc + k) == RestoreStep(from, EndRecovered, k)
    }

    method RestoreFrom(from: Location) returns (fate: Fate)
      requires AboutToRestore(from)
      modifies this
      ensures history == old(history)
      ensures Valid()
      ensures smooth ==> old(smooth) && (IsComplete(Files(old(files), from)) ==> fate.Done?)
      ensures fate.Done? ==> task == Busy(old(task).phase, old(task).op, old(task).pc + 5)
      ensures fate.Raised? ==> task == AfterRaise(old(task).phase, old(task).op, old(task).pc)
      ensures fate.Killed? ==> task == Idle(Crashed, old(task).op)
    {
      hide Play, Apply, CanDo, Progress, StepAt;
      ghost var Busy(phase, op, pc) := task;
      assert StepAt(phase, op, pc + 0) == RestoreStep(from, EndRecovered, 0);
      assert StepAt(phase, op, pc + 1) == RestoreStep(from, EndRecovered, 1);
      assert StepAt(phase, op, pc + 2) == RestoreStep(from, EndRecovered, 2);
      assert StepAt(phase, op, pc + 3) == RestoreStep(from, EndRecovered, 3);
      assert StepAt(phase, op, pc + 4) == RestoreStep(from, EndRecovered, 4);
      :- CheckSource(from);
      :- CopyTemporaryFile();
      :- CopyTemporaryFile();
      :- ReplaceBinary(from);
      fate := ReplaceManifest(from);
    }

    /** The guarded block of an installation: up to the replaced binary, and from there on. */
    method InstallBinary(id: string, backup: string) returns (fate: Fate)
      requires Valid() && task.Busy? && task.phase.Applying? && task.pc == 0
      requires task.op.kind.Install? && task.op.source == Staged(id) && task.op.backup == backup
      modifies this
      ensures history == old(history)
      ensures Valid()
      ensures smooth ==> old(smooth) && fate.Done?
      ensures fate.Done? ==> task == Busy(Applying, old(task).op, 6)
      ensures fate.Raised? ==> task == Busy(Undoing, old(task).op, 0)
      ensures fate.Killed? ==> task == Idle(Crashed, old(task).op)
    {
      hide Play, Apply, CanDo, Progress, ValidPair;
      ghost var op := task.op;
      assert StepAt(Applying, op, 0) == Stop && StepAt(Applying, op, 1) == WriteMarker(backup, Stopped);
      assert StepAt(Applying, op, 2) == CopyTemporary && StepAt(Applying, op, 3) == WriteMarker(backup, ReplacingBinary);
      assert StepAt(Applying, op, 4) == PlaceBinary(Staged(id)) && StepAt(Applying, op, 5) == WriteMarker(backup, BinaryReplaced);
      :- StopSidecar();
      :- WriteTransaction(backup, Stopped);
      :- CopyTemporaryFile();
      :- WriteTransaction(backup, ReplacingBinary);
      :- ReplaceBinary(Staged(id));
      fate := WriteTransaction(backup, BinaryReplaced);
    }

    method InstallManifest(id: string, backup: string) returns (fate: Fate)
      requires Valid() && task.Busy? && task.phase.Applying? && task.pc == 6
      requires task.op.kind.Install? && task.op.source == Staged(id) && task.op.backup == backup
      modifies this
      ensures history == old(history)
      ensures Valid()
      ensures smooth ==> old(smooth) && fate.Done?
      ensures fate.Done? ==> task == Idle(Installed, old(task).op)
      ensures fate.Raised? ==> task == Busy(Undoing, old(task).op, 0)
      ensures fate.Killed? ==> task == Idle(Crashed, old(task).op)
    {
      hide Play, Apply, CanDo, Progress, ValidPair;
      ghost var op := task.op;
      assert StepAt(Applying, op, 6) == CopyTemporary && StepAt(Applying, op, 7) == WriteMarker(backup, ReplacingManifest);
      assert StepAt(Applying, op, 8) == PlaceManifest(Staged(id)) && StepAt(Applying, op, 9) == WriteMarker(backup, Starting);
      assert StepAt(Applying, op, 10) == Start && StepAt(Applying, op, 11) == Archive(EndInstalled);
      :- CopyTemporaryFile();
      :- WriteTransaction(backup, ReplacingManifest);
      :- ReplaceManifest(Staged(id));
      :- WriteTransaction(backup, Starting);
      :- StartRunning();
      fate := ArchiveTransaction(EndInstalled);
    }

    method RollbackGuarded(source: string, recovery: string) returns (fate: Fate)
      requires Valid() && task.Busy? && task.phase.Applying? && task.pc == 0
      requires task.op.kind.Rollback? && task.op.source == Saved(source) && task.op.backup == recovery
      modifies this
      ensures history == old(history)
      ensures Valid()
      ensures smooth ==> old(smooth) && (IsComplete(Files(old(files), Saved(source))) ==> fate.Done?)
      ensures fate.Done? ==> task == Idle(RolledBack, old(task).op)
      ensures fate.Raised? ==> task == Busy(Undoing, old(task).op, 0)
      ensures fate.Killed? ==> task == Idle(Crashed, old(task).op)
    {
      hide Play, Apply, CanDo, Progress, ValidPair;
      fate := StopSidecar();
      if !fate.Done? {
        return;
      }
      :- WriteTransaction(recovery, RollbackStopped);
      :- RestoreFrom(Saved(source));
      :- WriteTransaction(recovery, RollbackStarting);
      :- StartRunning();
      fate := ArchiveTransaction(EndRollbackInstalled);
    }

    /** The exception handler of an install or rollback. */
    method Undo(recovery: string, ending: Ending) returns (fate: Fate)
      requires Valid() && task.Busy? && task.phase.Undoing? && task.pc == 0 && task.op.backup == recovery
      requires ending == if task.op.kind.Install? then EndRolledBack else EndRollbackRestored
      modifies this
      ensures history == old(history)
      ensures Valid()
      ensures smooth ==> old(smooth)
      ensures fate.Done? ==> task == Idle(if old(task).op.kind.Install? then RolledBack else FailedSafely, old(task).op)
      ensures fate.Raised? ==> task == Idle(FailedSafely, old(task).op)
      ensures fate.Killed? ==> task == Idle(Crashed, old(task).op)
    {
      hide PreparingStep, InstallStep, RollbackStep, ValidPair, Play, Apply, CanDo, Progress;
      fate := StopSidecar();
      if fate.Killed? {
        return;
      }
      :- CaptureFailedFiles();
      :- RestoreFrom(Saved(recovery));
      :- StartRunning();
      fate := ArchiveTransaction(ending);
    }

    method FindLatestBackup() returns (best: Option<string>)
      ensures best == LatestBackup(verifier, files)
    {
      best := None;
      var d := files;
      var rest := d.backups.Keys;
      while rest != {}
        invariant rest <= d.backups.Keys
        invariant best.None? ==> forall n :: n in d.backups && n !in rest ==> !Restorable(verifier, d, n)
        invariant best.Some? ==> IsLatestOf(verifier, d, d.backups.Keys - rest, best.value)
        decreases rest
      {
        var n :| n in rest;
        rest := rest - {n};
        if Restorable(verifier, d, n) {
          ghost var was := best;
          if best.None? || Older(d, best.value, n) {
            best := Some(n);
          }
          forall m | m in d.backups && m !in rest && m != best.value && Restorable(verifier, d, m)
            ensures Older(d, m, best.value)
          {
            LexOrder(m, n, n);
            if was.Some? {
              LexOrder(m, was.value, n);
              LexOrder(n, was.value, n);
            }
          }
        }
      }
      if best.Some? {
        assert IsLatest(verifier, d, best.value);
        LatestIsUnique(verifier, d, best.value, LatestBackup(verifier, d).value);
      }
    }

    /** Starts a new operation in the run. */
    ghost method Begin(l: Label)
      requires Valid() && task.Idle? && IsBegin(l)
      modifies this
      ensures Valid() && history == old(history) + old(steps) + [l] && steps == [] && files == old(files) && smooth
      ensures task == BeginTask(verifier, files, old(task).op, l)
      ensures Play(verifier, start, history) == Next(verifier, old(Contents()), l) == Contents()
    {
      PlayConcat(verifier, start, history, steps);
      ghost var was := history + steps;
      history, steps, smooth := was + [l], [], true;
      task := BeginTask(verifier, files, task.op, l);
      assert history[..|history| - 1] == was;
    }

    /**
     An installation. From a safe state it keeps the state safe; `Installed` means that the candidate
     is installed, and `RolledBack`, `Refused` or `Cancelled` that the old pair is.
     */
    method Install(id: string, stamp: string, at: int, confirmed: bool) returns (report: Report)
      requires Valid() && task.Idle?
      modifies this
      ensures Valid() && task.Idle? && task.report == report
      ensures history == old(history) + old(steps) + [BeginInstall(id, stamp, at, confirmed)]
      ensures report in {Refused, Cancelled, Installed, RolledBack, FailedSafely, Crashed}
      ensures report.Refused? ==> files == old(files).(backups := files.backups)
      ensures report.Cancelled? ==> files == old(files)
      ensures report.Cancelled? <==> CandidateAccepted(verifier, old(files), id) && !confirmed
      ensures smooth && confirmed && CandidateAccepted(verifier, old(files), id) && CanSave(verifier, old(files), stamp) ==>
                report.Installed?
      ensures Safe(verifier, old(Contents())) ==>
                && Safe(verifier, Contents())
                && (report.Installed? ==> CandidateAccepted(verifier, old(files), id) && files.installed == old(files).staging[id])
                && (report.RolledBack? ==> files.installed == old(files).installed)
                && (report.Installed? || report.RolledBack? ==> files.marker.None? && files.running)
                && (report.FailedSafely? ==> Records(files, task.op.backup)
                                             && BackupAt(files, task.op.backup).files == old(files).installed)
    {
      ghost var was, l := Contents(), BeginInstall(id, stamp, at, confirmed);
      Begin(l);
      if !CandidateAccepted(verifier, files, id) {
        report := Refused;
      } else if !confirmed {
        report := Cancelled;
      } else if !ValidPair(verifier, files.installed) {
        report := Refused;
      } else {
        var name := BackupName(files.installed.manifest.value.version, stamp);
        report := Refused;
        var fate := Prepare(name, at, Prepared);
        if fate.Done? {
          report := Installed;
          fate := InstallBinary(id, name);
          if fate.Done? {
            fate := InstallManifest(id, name);
          }
          if fate.Raised? {
            fate := Undo(name, EndRolledBack);
            report := if fate.Done? then RolledBack else FailedSafely;
          }
        }
        report := if fate.Killed? then Crashed else report;
      }
      if Safe(verifier, was) {
        InstallReportsTruly(verifier, was, l, steps);
      }
    }

    /**
     A rollback to the latest backup. From a safe state it keeps the state safe; `RolledBack` means that
     the files of the backup that was latest are installed, and the current pair was saved if it was valid.
     */
    method Rollback(stamp: string, at: int, confirmed: bool) returns (report: Report)
      requires Valid() && task.Idle?
      modifies this
      ensures Valid() && task.Idle? && task.report == report
      ensures history == old(history) + old(steps) + [BeginRollback(stamp, at, confirmed)]
      ensures report in {NoBackup, Cancelled, Refused, RolledBack, FailedSafely, Crashed}
      ensures report.NoBackup? <==> LatestBackup(verifier, old(files)).None?
      ensures report.NoBackup? || report.Cancelled? ==> files == old(files)
      ensures report.Cancelled? <==> LatestBackup(verifier, old(files)).Some? && !confirmed
      ensures smooth && confirmed && LatestBackup(verifier, old(files)).Some? ==>
                report.RolledBack? || (ValidPair(verifier, old(files).installed) && !CanSave(verifier, old(files), stamp))
      ensures report.Refused? ==> files == old(files).(backups := files.backups)
      ensures Safe(verifier, old(Contents())) ==>
                && Safe(verifier, Contents())
                && (report.RolledBack? ==>
                      && LatestBackup(verifier, old(files)).Some?
                      && files.installed == old(files).backups[LatestBackup(verifier, old(files)).value].files
                      && files.marker.None? && files.running)
    {
      ghost var was, l := Contents(), BeginRollback(stamp, at, confirmed);
      var source := FindLatestBackup();
      Begin(l);
      if source.None? {
        report := NoBackup;
      } else if !confirmed {
        report := Cancelled;
      } else {
        var recovery := source.value;
        var fate;
        report := Refused;
        if ValidPair(verifier, files.installed) {
          recovery := BackupName(files.installed.manifest.value.version, stamp);
          fate := Prepare(recovery, at, RollbackPrepared);
        } else {
          fate := WriteTransaction(recovery, RollbackPrepared);
        }
        if fate.Done? {
          report := RolledBack;
          fate := RollbackGuarded(source.value, recovery);
          if fate.Raised? {
            report := FailedSafely;
            fate := Undo(recovery, EndRollbackRestored);
          }
        }
        report := if fate.Killed? then Crashed else report;
      }
      if Safe(verifier, was) {
        RollbackReportsTruly(verifier, was, l, steps);
      }
    }

    /** The backup the marker names if usable, otherwise the latest one. */
    method FindRecoverySource() returns (source: Option<string>)
      ensures source == RecoverySource(verifier, files)
    {
      if MarkerUsable(verifier, files) {
        source := Some(files.marker.value.recovery);
      } else {
        source := FindLatestBackup();
      }
    }

    method RecoverGuarded(source: string) returns (fate: Fate)
      requires Valid() && task.Busy? && task.phase.Recovering? && task.pc == 0 && task.op.source == Saved(source)
      modifies this
      ensures history == old(history)
      ensures Valid()
      ensures smooth ==> old(smooth) && (IsComplete(Files(old(files), Saved(source))) ==> fate.Done?)
      ensures fate.Done? ==> task == Idle(RolledBack, old(task).op)
      ensures fate.Raised? ==> task == Idle(FailedSafely, old(task).op)
      ensures fate.Killed? ==> task == Idle(Crashed, old(task).op)
    {
      hide Play, Apply, CanDo, Progress, ValidPair;
      fate := RestoreFrom(Saved(source));
      if !fate.Done? {
        return;
      }
      :- StartRunning();
      fate := ArchiveTransaction(EndRecovered);
    }

    /**
     Recovery from an interrupted operation. It always has a source in a safe state with a marker, and
     `RolledBack` means that the files of that source are installed and the marker is gone.
     */
    method RecoverInterruptedUpdate() returns (report: Report)
      requires Valid() && task.Idle?
      modifies this
      ensures Valid() && task.Idle? && task.report == report
      ensures history == old(history) + old(steps) + [BeginRecover]
      ensures report in {NotNeeded, NoBackup, RolledBack, FailedSafely, Crashed}
      ensures report.NotNeeded? || report.NoBackup? ==> files == old(files)
      ensures report.NoBackup? <==> !report.NotNeeded? && RecoverySource(verifier, old(files)).None?
      ensures smooth && !report.NotNeeded? && !report.NoBackup? ==> report.RolledBack?
      ensures report.NotNeeded? <==> old(files).marker.None? && ValidPair(verifier, old(files).installed)
      ensures Safe(verifier, old(Contents())) ==>
                && Safe(verifier, Contents()) && !report.NoBackup?
                && (report.RolledBack? ==>
                      && RecoverySource(verifier, old(files)).Some?
                      && files.installed == BackupAt(old(files), RecoverySource(verifier, old(files)).value).files
                      && files.marker.None? && files.running)
    {
      ghost var was := Contents();
      var source := FindRecoverySource();
      Begin(BeginRecover);
      if files.marker.None? && ValidPair(verifier, files.installed) {
        report := NotNeeded;
      } else if source.None? {
        report := NoBackup;
      } else {
        var fate := RecoverGuarded(source.value);
        report := match fate case Done => RolledBack case Raised => FailedSafely case Killed => Crashed;
      }
      if Safe(verifier, was) {
        RecoveryReportsTruly(verifier, was, steps);
      }
    }
  }
}
