/**
 Runs of updates, rollbacks and recoveries in which any step may raise or be cut short by a crash.
 `Next` is total: a label that is not enabled leaves the state alone, so `Play` ranges over every run.
 */
module UpdateRuns {
  import opened Wrappers
  import opened UpdateProtocol

  /** How the last operation ended. `Refused` is an exception that leaves the operation. */
  datatype Report =
    | Unused | Crashed | Refused | Cancelled | NoBackup | NotNeeded | Installed | RolledBack | FailedSafely

  /** `op` is the operation in progress, or the last one when idle. */
  datatype Task = Idle(report: Report, op: Operation) | Busy(phase: Phase, op: Operation, pc: nat)

  datatype State = State(disk: Disk, task: Task)

  datatype Label =
    | BeginInstall(id: string, stamp: string, at: int, confirmed: bool)
    | BeginRollback(stamp: string, at: int, confirmed: bool)
    | BeginRecover
    | Do
    | Raise(after: Disk)
    | Crash(after: Disk)

  predicate IsBegin(l: Label) {
    l.BeginInstall? || l.BeginRollback? || l.BeginRecover?
  }

  function InstallOperation(d: Disk, id: string, stamp: string, at: int): Operation
    requires d.installed.manifest.Some? && d.installed.manifest.value.Manifest?
  {
    Operation(Install, Staged(id), Files(d, Staged(id)),
              BackupName(d.installed.manifest.value.version, stamp), d.installed, true, at, d.installed)
  }

  function RollbackOperation(v: Verifier, d: Disk, source: string, stamp: string, at: int): Operation {
    var target := BackupAt(d, source).files;
    if ValidPair(v, d.installed) then
      Operation(Rollback, Saved(source), target,
                BackupName(d.installed.manifest.value.version, stamp), d.installed, true, at, d.installed)
    else
      Operation(Rollback, Saved(source), target, source, target, false, at, d.installed)
  }

  function RecoverOperation(d: Disk, source: string): Operation {
    var target := BackupAt(d, source).files;
    Operation(Recover, Saved(source), target, source, target, false, 0, d.installed)
  }

  predicate CandidateAccepted(v: Verifier, d: Disk, id: string) {
    SafeId(id) && id in d.staging && ValidPair(v, d.staging[id])
  }

  ghost function BeginTask(v: Verifier, d: Disk, op: Operation, l: Label): Task
    requires IsBegin(l)
  {
    match l
    case BeginInstall(id, stamp, at, confirmed) =>
      if !CandidateAccepted(v, d, id) then Idle(Refused, op)
      else if !confirmed then Idle(Cancelled, op)
      else if !ValidPair(v, d.installed) then Idle(Refused, op)
      else Busy(Preparing, InstallOperation(d, id, stamp, at), 0)
    case BeginRollback(stamp, at, confirmed) =>
      var source := LatestBackup(v, d);
      if source.None? then Idle(NoBackup, op)
      else if !confirmed then Idle(Cancelled, op)
      else Busy(Preparing, RollbackOperation(v, d, source.value, stamp, at), 0)
    case BeginRecover =>
      var source := RecoverySource(v, d);
      if d.marker.None? && ValidPair(v, d.installed) then Idle(NotNeeded, op)
      else if source.None? then Idle(NoBackup, op)
      else Busy(Recovering, RecoverOperation(d, source.value), 0)
  }

  /** Control flow after a completed step. */
  function AfterStep(phase: Phase, op: Operation, pc: nat): Task {
    if pc + 1 < Length(phase, op) then Busy(phase, op, pc + 1)
    else match phase
      case Preparing => Busy(Applying, op, 0)
      case Applying => Idle(if op.kind.Install? then Installed else RolledBack, op)
      case Undoing => Idle(if op.kind.Install? then RolledBack else FailedSafely, op)
      case Recovering => Idle(RolledBack, op)
  }

  /** Control flow after a step that raised: only the first stop of a handler is forgiven. */
  function AfterRaise(phase: Phase, op: Operation, pc: nat): Task {
    match phase
    case Preparing => Idle(Refused, op)
    case Applying => Busy(Undoing, op, 0)
    case Undoing => if pc == 0 then Busy(Undoing, op, 1) else Idle(FailedSafely, op)
    case Recovering => Idle(FailedSafely, op)
  }

  ghost function Next(v: Verifier, s: State, l: Label): State {
    match (s.task, l)
    case (Busy(phase, op, pc), Do) =>
      if CanDo(v, StepAt(phase, op, pc), s.disk) then
        State(Apply(StepAt(phase, op, pc), s.disk), AfterStep(phase, op, pc))
      else s
    case (Busy(phase, op, pc), Raise(after)) =>
      if Interrupted(StepAt(phase, op, pc), s.disk, after) then State(after, AfterRaise(phase, op, pc)) else s
    case (Busy(phase, op, pc), Crash(after)) =>
      if Interrupted(StepAt(phase, op, pc), s.disk, after) then State(after, Idle(Crashed, op)) else s
    case (Idle(_, op), _) =>
      if IsBegin(l) then State(s.disk, BeginTask(v, s.disk, op, l)) else s
    case _ => s
  }

  ghost function Play(v: Verifier, s: State, ls: seq<Label>): State
    decreases |ls|
  {
    if ls == [] then s else Next(v, Play(v, s, ls[..|ls| - 1]), ls[|ls| - 1])
  }

  lemma {:induction false} PlayConcat(v: Verifier, s: State, ls: seq<Label>, ks: seq<Label>)
    ensures Play(v, s, ls + ks) == Play(v, Play(v, s, ls), ks)
    decreases |ks|
  {
    if ks == [] {
      assert ls + ks == ls;
    } else {
      assert (ls + ks)[..|ls + ks| - 1] == ls + ks[..|ks| - 1];
      PlayConcat(v, s, ls, ks[..|ks| - 1]);
    }
  }

  /* What every run keeps */

  /** No marker: the installed pair matches. A marker: its recorded backup is valid. Only valid pairs are started. */
  ghost predicate DiskSafe(v: Verifier, d: Disk) {
    && (d.marker.None? ==> ValidPair(v, d.installed))
    && (d.marker.Some? ==> d.marker.value.Marker? && Restorable(v, d, d.marker.value.recovery))
    && forall p :: p in d.launches ==> ValidPair(v, p)
  }

  predicate Records(d: Disk, name: string) {
    d.marker.Some? && d.marker.value.Marker? && d.marker.value.recovery == name
  }

  /** The pair under replacement after the steps before `pc`: first the binary changes, then the manifest. */
  predicate PartlyPlaced(d: Disk, from: Pair, to: Pair, binaryAt: nat, manifestAt: nat, pc: nat) {
    && d.installed.binary == (if pc > binaryAt then to.binary else from.binary)
    && d.installed.manifest == (if pc > manifestAt then to.manifest else from.manifest)
  }

  predicate Placed(d: Disk, to: Pair, binaryAt: nat, manifestAt: nat, pc: nat) {
    && (pc > binaryAt ==> d.installed.binary == to.binary)
    && (pc > manifestAt ==> d.installed.manifest == to.manifest)
  }

  ghost predicate PhaseSafe(v: Verifier, d: Disk, phase: Phase, op: Operation, pc: nat) {
    match phase
    case Preparing =>
      && d.installed == op.before
      && (op.saves ==>
        && ValidPair(v, op.undo)
        && (pc > 0 ==> op.backup in d.backups && op.source != Saved(op.backup)
                       && !Records(d, op.backup))
        && (pc > 1 ==> d.backups[op.backup].createdAt == Some(op.at))
        && (pc > 2 ==> d.backups[op.backup].files.binary == op.undo.binary)
        && (pc > 3 ==> d.backups[op.backup].files.manifest == op.undo.manifest))
      && (!op.saves ==> Restorable(v, d, op.backup) && d.backups[op.backup].files == op.undo)
    case Applying =>
      && Records(d, op.backup)
      && PartlyPlaced(d, op.before, op.target, if op.kind.Install? then 4 else 5, if op.kind.Install? then 8 else 6, pc)
      && (0 < pc <= Length(phase, op) - 2 ==> !d.running)
      && (pc == Length(phase, op) - 1 ==> d.running)
    case Undoing =>
      && Records(d, op.backup)
      && Placed(d, op.undo, 5, 6, pc)
      && (pc == Length(phase, op) - 1 ==> d.running)
    case Recovering =>
      && d.marker.Some?
      && Placed(d, op.target, 3, 4, pc)
      && (pc == Length(phase, op) - 1 ==> d.running)
  }

  ghost predicate OperationSafe(v: Verifier, d: Disk, op: Operation, phase: Phase) {
    && (op.kind.Install? ==> op.source.Staged? && op.saves)
    && (op.saves ==> op.undo == op.before && !op.kind.Recover?)
    && (!op.kind.Install? ==> op.source.Saved? && op.source.name in d.backups)
    && (op.kind.Recover? <==> phase.Recovering?)
    && Files(d, op.source) == op.target && ValidPair(v, op.target)
    && (phase.Applying? || phase.Undoing? ==>
          Restorable(v, d, op.backup) && d.backups[op.backup].files == op.undo)
  }

  /** What each report says about the files. */
  ghost predicate ReportTrue(v: Verifier, d: Disk, report: Report, op: Operation) {
    match report
    case Installed => op.kind.Install? && d.marker.None? && d.running && d.installed == op.target
    case RolledBack =>
      d.marker.None? && d.running && d.installed == (if op.kind.Install? then op.before else op.target)
    case FailedSafely =>
      if d.marker.None? then op.kind.Rollback? && d.running && d.installed == op.undo
      else op.kind.Recover? || (Records(d, op.backup) && BackupAt(d, op.backup).files == op.undo)
    case _ => true
  }

  ghost predicate Safe(v: Verifier, s: State) {
    && DiskSafe(v, s.disk)
    && match s.task
       case Idle(report, op) => ReportTrue(v, s.disk, report, op)
       case Busy(phase, op, pc) =>
         pc < Length(phase, op) && OperationSafe(v, s.disk, op, phase) && PhaseSafe(v, s.disk, phase, op, pc)
  }

  lemma BeginKeepsSafe(v: Verifier, s: State, l: Label)
    requires Safe(v, s) && s.task.Idle? && IsBegin(l)
    ensures Safe(v, Next(v, s, l))
  {
  }

  lemma PreparingKeepsSafe(v: Verifier, s: State)
    requires Safe(v, s) && s.task.Busy? && s.task.phase.Preparing?
    ensures Safe(v, Next(v, s, Do))
  {
    var Busy(_, op, pc) := s.task;
    assert StepAt(Preparing, op, pc) == PreparingStep(op, pc);
    if !op.saves {
    } else if pc == 5 {
    } else {
    }
  }

  lemma InstallingKeepsSafe(v: Verifier, s: State)
    requires Safe(v, s) && s.task.Busy? && s.task.phase.Applying? && s.task.op.kind.Install?
    ensures Safe(v, Next(v, s, Do))
  {
    hide ValidPair, PreparingStep, RollbackStep;
    var Busy(_, op, pc) := s.task;
    assert StepAt(Applying, op, pc) == InstallStep(op, pc);
    if pc == 11 { } else if pc == 10 { } else if pc == 8 { } else if pc == 4 { } else { }
  }

  lemma RollingBackKeepsSafe(v: Verifier, s: State)
    requires Safe(v, s) && s.task.Busy? && s.task.phase.Applying? && !s.task.op.kind.Install?
    ensures Safe(v, Next(v, s, Do))
  {
    hide ValidPair, PreparingStep, InstallStep;
    var Busy(_, op, pc) := s.task;
    assert StepAt(Applying, op, pc) == RollbackStep(op, pc);
    if pc == 9 { } else if pc == 8 { } else if pc == 6 { } else if pc == 5 { } else { }
  }

  lemma UndoingKeepsSafe(v: Verifier, s: State)
    requires Safe(v, s) && s.task.Busy? && s.task.phase.Undoing?
    ensures Safe(v, Next(v, s, Do))
  {
    hide ValidPair, PreparingStep, InstallStep, RollbackStep;
    var pc := s.task.pc;
    if pc == 8 { } else if pc == 7 { } else if pc == 6 { } else if pc == 5 { } else { }
  }

  lemma RecoveringKeepsSafe(v: Verifier, s: State)
    requires Safe(v, s) && s.task.Busy? && s.task.phase.Recovering?
    ensures Safe(v, Next(v, s, Do))
  {
    hide ValidPair, PreparingStep, InstallStep, RollbackStep;
    var pc := s.task.pc;
    if pc == 6 { } else if pc == 5 { } else if pc == 4 { } else if pc == 3 { } else { }
  }

  lemma InterruptedKeepsFiles(v: Verifier, s: State, after: Disk)
    requires Safe(v, s) && s.task.Busy? && Interrupted(StepAt(s.task.phase, s.task.op, s.task.pc), s.disk, after)
    ensures DiskSafe(v, after)
    ensures !s.task.phase.Preparing? ==> after == s.disk.(running := after.running, launches := after.launches)
  {
    var Busy(phase, op, pc) := s.task;
    match phase
    case Preparing => assert StepAt(Preparing, op, pc) == PreparingStep(op, pc);
    case Applying =>
    case Undoing =>
    case Recovering =>
  }

  lemma RaiseKeepsSafe(v: Verifier, s: State, after: Disk)
    requires Safe(v, s) && s.task.Busy?
    ensures Safe(v, Next(v, s, Raise(after)))
  {
    var Busy(phase, op, pc) := s.task;
    if Interrupted(StepAt(phase, op, pc), s.disk, after) {
      InterruptedKeepsFiles(v, s, after);
    }
  }

  lemma CrashKeepsSafe(v: Verifier, s: State, after: Disk)
    requires Safe(v, s) && s.task.Busy?
    ensures Safe(v, Next(v, s, Crash(after)))
  {
    var Busy(phase, op, pc) := s.task;
    if Interrupted(StepAt(phase, op, pc), s.disk, after) {
      InterruptedKeepsFiles(v, s, after);
    }
  }

  lemma NextKeepsSafe(v: Verifier, s: State, l: Label)
    requires Safe(v, s)
    ensures Safe(v, Next(v, s, l))
  {
    if s.task.Busy? {
      match l
      case Do =>
        match s.task.phase {
          case Preparing => PreparingKeepsSafe(v, s);
          case Applying =>
            if s.task.op.kind.Install? { InstallingKeepsSafe(v, s); } else { RollingBackKeepsSafe(v, s); }
          case Undoing => UndoingKeepsSafe(v, s);
          case Recovering => RecoveringKeepsSafe(v, s);
        }
      case Raise(after) => RaiseKeepsSafe(v, s, after);
      case Crash(after) => CrashKeepsSafe(v, s, after);
      case _ =>
    } else if IsBegin(l) {
      BeginKeepsSafe(v, s, l);
    }
  }

  /** Every state of every run is safe, and a marker left behind always has a valid backup to recover from. */
  lemma {:induction false} RunsAreSafe(v: Verifier, s: State, ls: seq<Label>)
    requires Safe(v, s)
    ensures Safe(v, Play(v, s, ls))
    ensures var d := Play(v, s, ls).disk;
            d.marker.Some? ==> RecoverySource(v, d).Some? && ValidPair(v, BackupAt(d, RecoverySource(v, d).value).files)
  {
    if ls != [] {
      RunsAreSafe(v, s, ls[..|ls| - 1]);
      NextKeepsSafe(v, Play(v, s, ls[..|ls| - 1]), ls[|ls| - 1]);
    }
  }

  /* Which backup recovery chooses */

  predicate NewerThanOthers(d: Disk, n: string, at: int) {
    forall m :: m in d.backups && m != n && d.backups[m].createdAt.Some? ==> d.backups[m].createdAt.value < at
  }

  predicate Newest(d: Disk, n: string) {
    && n in d.backups && d.backups[n].createdAt.Some?
    && NewerThanOthers(d, n, d.backups[n].createdAt.value)
  }

  /** An install or rollback begun with no leftover marker, at a time later than every recorded one. */
  predicate Orderly(d: Disk, l: Label) {
    l.BeginInstall? || l.BeginRollback? ==>
      d.marker.None? && forall m :: m in d.backups && d.backups[m].createdAt.Some? ==> d.backups[m].createdAt.value < l.at
  }

  ghost predicate OrderlyRun(v: Verifier, s: State, ls: seq<Label>) {
    forall i :: 0 <= i < |ls| ==> Orderly(Play(v, s, ls[..i]).disk, ls[i])
  }

  /** The recorded backup is the newest one; an operation that succeeded left the pair it replaced as the newest. */
  ghost predicate NewestRecorded(v: Verifier, s: State) {
    var d := s.disk;
    && (d.marker.Some? && d.marker.value.Marker? ==> Newest(d, d.marker.value.recovery))
    && match s.task
       case Idle(report, op) =>
         (report.Installed? || report.RolledBack?) && op.saves ==>
           Newest(d, op.backup) && Restorable(v, d, op.backup) && d.backups[op.backup].files == op.before
       case Busy(phase, op, pc) =>
         phase.Preparing? ==> d.marker.None? && op.saves && NewerThanOthers(d, op.backup, op.at)
  }

  lemma NewestIsLatest(v: Verifier, d: Disk, n: string)
    requires Newest(d, n) && Restorable(v, d, n)
    ensures LatestBackup(v, d) == Some(n)
  {
    LatestIsUnique(v, d, n, LatestBackup(v, d).value);
  }

  /** Backups are left alone, and markers name the operation's own backup. */
  predicate KeepsBackups(d: Disk, after: Disk, op: Operation) {
    after.backups == d.backups && (after.marker == d.marker || after.marker.None? || Records(after, op.backup))
  }

  lemma InstallStepsKeepBackups(v: Verifier, s: State, l: Label)
    requires Safe(v, s) && s.task.Busy? && s.task.phase.Applying? && s.task.op.kind.Install?
    ensures KeepsBackups(s.disk, Next(v, s, l).disk, s.task.op)
  {
    hide ValidPair, Restorable, PreparingStep, RollbackStep;
    assert StepAt(Applying, s.task.op, s.task.pc) == InstallStep(s.task.op, s.task.pc);
  }

  lemma RollbackStepsKeepBackups(v: Verifier, s: State, l: Label)
    requires Safe(v, s) && s.task.Busy? && s.task.phase.Applying? && !s.task.op.kind.Install?
    ensures KeepsBackups(s.disk, Next(v, s, l).disk, s.task.op)
  {
    hide ValidPair, Restorable, PreparingStep, InstallStep;
    assert StepAt(Applying, s.task.op, s.task.pc) == RollbackStep(s.task.op, s.task.pc);
  }

  /** Only a preparing operation touches backups. */
  lemma LaterStepsKeepBackups(v: Verifier, s: State, l: Label)
    requires Safe(v, s) && s.task.Busy? && !s.task.phase.Preparing?
    ensures KeepsBackups(s.disk, Next(v, s, l).disk, s.task.op)
    ensures s.task.phase.Recovering? ==> var m := Next(v, s, l).disk.marker; m == s.disk.marker || m.None?
  {
    hide ValidPair, Restorable, PreparingStep, InstallStep, RollbackStep;
    if s.task.phase.Applying? {
      if s.task.op.kind.Install? { InstallStepsKeepBackups(v, s, l); } else { RollbackStepsKeepBackups(v, s, l); }
    }
  }

  lemma PreparingKeepsNewest(v: Verifier, s: State, l: Label)
    requires Safe(v, s) && NewestRecorded(v, s) && s.task.Busy? && s.task.phase.Preparing?
    ensures NewestRecorded(v, Next(v, s, l))
  {
    assert StepAt(Preparing, s.task.op, s.task.pc) == PreparingStep(s.task.op, s.task.pc);
  }

  lemma NextKeepsNewest(v: Verifier, s: State, l: Label)
    requires Safe(v, s) && NewestRecorded(v, s) && Orderly(s.disk, l)
    ensures NewestRecorded(v, Next(v, s, l))
  {
    if s.task.Busy? {
      if s.task.phase.Preparing? {
        PreparingKeepsNewest(v, s, l);
      } else {
        NextKeepsSafe(v, s, l);
        LaterStepsKeepBackups(v, s, l);
      }
    }
  }

  /** Recovery picks the recorded backup at every point of an orderly run, whatever its name looks like. */
  lemma {:induction false} RecordedBackupIsChosen(v: Verifier, s: State, ls: seq<Label>)
    requires Safe(v, s) && NewestRecorded(v, s) && OrderlyRun(v, s, ls)
    ensures NewestRecorded(v, Play(v, s, ls))
    ensures var d := Play(v, s, ls).disk;
            d.marker.Some? ==> d.marker.value.Marker? && RecoverySource(v, d) == Some(d.marker.value.recovery)
  {
    RunsAreSafe(v, s, ls);
    if ls != [] {
      var front := ls[..|ls| - 1];
      assert forall i :: 0 <= i < |front| ==> ls[..i] == front[..i] && ls[i] == front[i];
      RecordedBackupIsChosen(v, s, front);
      RunsAreSafe(v, s, front);
      NextKeepsNewest(v, Play(v, s, front), ls[|ls| - 1]);
    }
    var d := Play(v, s, ls).disk;
    if d.marker.Some? {
      NewestIsLatest(v, d, d.marker.value.recovery);
    }
  }

  /* One operation, and the rollback after it */

  predicate Progress(ls: seq<Label>) {
    forall l :: l in ls ==> !IsBegin(l)
  }

  lemma {:induction false} ProgressKeepsOperation(v: Verifier, s: State, ls: seq<Label>)
    requires Progress(ls)
    ensures Play(v, s, ls).task.op == s.task.op
    ensures s.task.Idle? ==> Play(v, s, ls) == s
  {
    if ls != [] {
      ProgressKeepsOperation(v, s, ls[..|ls| - 1]);
    }
  }

  /** How an install that began in a safe state has ended, from its report alone. */
  lemma InstallReportsTruly(v: Verifier, s: State, l: Label, ls: seq<Label>)
    requires Safe(v, s) && s.task.Idle? && l.BeginInstall? && Progress(ls)
    requires Play(v, Next(v, s, l), ls).task.Idle?
    ensures var e := Play(v, Next(v, s, l), ls);
            && Safe(v, e)
            && (e.task.report.Installed? ==> CandidateAccepted(v, s.disk, l.id) && e.disk.installed == s.disk.staging[l.id])
            && (e.task.report.RolledBack? ==> e.disk.installed == s.disk.installed)
            && (e.task.report.Installed? || e.task.report.RolledBack? ==> e.disk.marker.None? && e.disk.running)
            && (e.task.report.FailedSafely? ==> Records(e.disk, e.task.op.backup)
                                                && BackupAt(e.disk, e.task.op.backup).files == s.disk.installed)
  {
    NextKeepsSafe(v, s, l);
    RunsAreSafe(v, Next(v, s, l), ls);
    ProgressKeepsOperation(v, Next(v, s, l), ls);
  }

  lemma RollbackReportsTruly(v: Verifier, s: State, l: Label, ls: seq<Label>)
    requires Safe(v, s) && s.task.Idle? && l.BeginRollback? && Progress(ls)
    requires Play(v, Next(v, s, l), ls).task.Idle?
    ensures var e := Play(v, Next(v, s, l), ls);
            && Safe(v, e)
            && (e.task.report.RolledBack? ==>
                  && LatestBackup(v, s.disk).Some?
                  && e.disk.installed == s.disk.backups[LatestBackup(v, s.disk).value].files
                  && e.disk.marker.None? && e.disk.running)
            && (e.task.report.FailedSafely? && e.disk.marker.None? ==>
                  && LatestBackup(v, s.disk).Some?
                  && e.disk.installed == (if ValidPair(v, s.disk.installed) then s.disk.installed
                                          else s.disk.backups[LatestBackup(v, s.disk).value].files))
  {
    NextKeepsSafe(v, s, l);
    RunsAreSafe(v, Next(v, s, l), ls);
    ProgressKeepsOperation(v, Next(v, s, l), ls);
  }

  lemma RecoveryReportsTruly(v: Verifier, s: State, ls: seq<Label>)
    requires Safe(v, s) && s.task.Idle? && Progress(ls)
    requires Play(v, Next(v, s, BeginRecover), ls).task.Idle?
    ensures var e := Play(v, Next(v, s, BeginRecover), ls);
            && Safe(v, e) && !e.task.report.NoBackup?
            && (e.task.report.RolledBack? ==>
                  && RecoverySource(v, s.disk).Some?
                  && e.disk.installed == BackupAt(s.disk, RecoverySource(v, s.disk).value).files
                  && e.disk.marker.None? && e.disk.running)
  {
    NextKeepsSafe(v, s, BeginRecover);
    RunsAreSafe(v, s, []);
    RunsAreSafe(v, Next(v, s, BeginRecover), ls);
    ProgressKeepsOperation(v, Next(v, s, BeginRecover), ls);
  }

  predicate Declined(report: Report) {
    report.Cancelled? || report.NoBackup? || report.NotNeeded?
  }

  /** Everything but the backups is as it was. */
  predicate OnlyBackupsDiffer(before: Disk, after: Disk) {
    after == before.(backups := after.backups)
  }

  /** Until its marker is written an operation touches only backups, and it is never declined once begun. */
  predicate HasNotBegunReplacing(before: Disk, s: State) {
    match s.task
    case Idle(report, _) => !Declined(report) && (report.Refused? ==> OnlyBackupsDiffer(before, s.disk))
    case Busy(phase, _, _) => phase.Preparing? ==> OnlyBackupsDiffer(before, s.disk)
  }

  lemma PreparingTouchesBackups(v: Verifier, before: Disk, s: State, l: Label)
    requires s.task.Busy? && s.task.phase.Preparing? && s.task.pc < Length(Preparing, s.task.op)
    requires HasNotBegunReplacing(before, s)
    ensures HasNotBegunReplacing(before, Next(v, s, l))
    ensures var t := Next(v, s, l).task; t.Busy? ==> t.pc < Length(t.phase, t.op)
  {
    assert StepAt(Preparing, s.task.op, s.task.pc) == PreparingStep(s.task.op, s.task.pc);
  }

  lemma {:induction false} ProgressBeforeReplacing(v: Verifier, before: Disk, s: State, ls: seq<Label>)
    requires s.task.Busy? && s.task.pc < Length(s.task.phase, s.task.op) && HasNotBegunReplacing(before, s) && Progress(ls)
    ensures HasNotBegunReplacing(before, Play(v, s, ls))
    ensures var t := Play(v, s, ls).task; t.Busy? ==> t.pc < Length(t.phase, t.op)
  {
    if ls != [] {
      ProgressBeforeReplacing(v, before, s, ls[..|ls| - 1]);
      var t := Play(v, s, ls[..|ls| - 1]);
      if t.task.Busy? && t.task.phase.Preparing? {
        PreparingTouchesBackups(v, before, t, ls[|ls| - 1]);
      }
    }
  }

  /** A declined operation leaves the disk as it was, and a refused one, even refused midway, all but its backups. */
  lemma DeclinedChangesNothing(v: Verifier, s: State, l: Label, ls: seq<Label>)
    requires s.task.Idle? && IsBegin(l) && Progress(ls) && Play(v, Next(v, s, l), ls).task.Idle?
    ensures var e := Play(v, Next(v, s, l), ls);
            && (e.task.report.Cancelled? || e.task.report.NoBackup? || e.task.report.NotNeeded? ==> e.disk == s.disk)
            && (e.task.report.Refused? ==> OnlyBackupsDiffer(s.disk, e.disk))
  {
    ProgressKeepsOperation(v, Next(v, s, l), ls);
    if Next(v, s, l).task.Busy? {
      ProgressBeforeReplacing(v, s.disk, Next(v, s, l), ls);
    }
  }

  lemma {:induction false} ProgressKeepsNewest(v: Verifier, s: State, ls: seq<Label>)
    requires Safe(v, s) && NewestRecorded(v, s) && Progress(ls)
    ensures Safe(v, Play(v, s, ls)) && NewestRecorded(v, Play(v, s, ls))
  {
    RunsAreSafe(v, s, ls);
    assert forall i :: 0 <= i < |ls| ==> ls[i] in ls;
    RecordedBackupIsChosen(v, s, ls);
  }

  /**
   A rollback that succeeds after an install or rollback that succeeded brings back the pair from
   before both: install then rollback undoes the install, and two rollbacks undo each other.
   */
  lemma RollbackUndoes(v: Verifier, s0: State, l1: Label, ls1: seq<Label>, l2: Label, ls2: seq<Label>)
    requires Safe(v, s0) && NewestRecorded(v, s0) && s0.task.Idle?
    requires (l1.BeginInstall? || l1.BeginRollback?) && Orderly(s0.disk, l1) && Progress(ls1)
    requires Play(v, Next(v, s0, l1), ls1).task.Idle?
    requires Play(v, Next(v, s0, l1), ls1).task.report == (if l1.BeginInstall? then Installed else RolledBack)
    requires l2.BeginRollback? && Orderly(Play(v, Next(v, s0, l1), ls1).disk, l2) && Progress(ls2)
    requires Play(v, Next(v, Play(v, Next(v, s0, l1), ls1), l2), ls2).task.Idle?
    requires Play(v, Next(v, Play(v, Next(v, s0, l1), ls1), l2), ls2).task.report == RolledBack
    ensures Play(v, Next(v, Play(v, Next(v, s0, l1), ls1), l2), ls2).disk.installed == s0.disk.installed
  {
    var b1 := Next(v, s0, l1);
    NextKeepsSafe(v, s0, l1);
    NextKeepsNewest(v, s0, l1);
    ProgressKeepsOperation(v, b1, ls1);
    ProgressKeepsNewest(v, b1, ls1);
    var s1 := Play(v, b1, ls1);
    var op1 := s1.task.op;
    NewestIsLatest(v, s1.disk, op1.backup);
    var b2 := Next(v, s1, l2);
    NextKeepsSafe(v, s1, l2);
    ProgressKeepsOperation(v, b2, ls2);
    RunsAreSafe(v, b2, ls2);
  }

  /** Among safe states with a marker, exactly those in which recovery restores the backup the marker records. */
  lemma RecordedIsChosenIff(v: Verifier, d: Disk)
    requires DiskSafe(v, d) && d.marker.Some?
    ensures RecoverySource(v, d) == Some(d.marker.value.recovery)
       <==> SafeId(d.marker.value.recovery) || IsLatest(v, d, d.marker.value.recovery)
  {
    if IsLatest(v, d, d.marker.value.recovery) {
      LatestIsUnique(v, d, d.marker.value.recovery, LatestBackup(v, d).value);
    }
  }

  const RECORDED := BackupName("1.0+a", "20250101T000000000000Z")
  const NEWER := BackupName("2.0", "20250102T000000000000Z")

  /** A version label with a plus sign makes a name that does not match the pattern; beside a newer backup it is passed over. */
  lemma SomeRecordedIsNotChosen(v: Verifier, d: Disk, recorded: Pair, newer: Pair)
    requires ValidPair(v, recorded) && ValidPair(v, newer) && ValidPair(v, d.installed) && d.launches == []
    requires d.backups == map[RECORDED := Backup(Some(0), recorded), NEWER := Backup(Some(1), newer)]
    requires d.marker == Some(Marker(RECORDED, Prepared))
    ensures DiskSafe(v, d) && RecoverySource(v, d) != Some(RECORDED)
  {
    assert RECORDED[3] == '+' && NEWER[0] != RECORDED[0];
    assert Restorable(v, d, NEWER) && !Older(d, NEWER, RECORDED);
    RecordedIsChosenIff(v, d);
  }
}
