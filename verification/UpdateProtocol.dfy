/**
 The files of a Sidecar installation and the steps in which an update changes them.

 An operation is a plan: a numbered list of file steps. Any step may complete, raise or be cut
 short by a crash, and a step cut short may leave part of its effect behind.
 */
module UpdateProtocol {
  import opened Wrappers

  newtype Byte = b: int | 0 <= b < 256
  type Bytes = seq<Byte>

  /** `Malformed` is any manifest text that loading rejects. */
  datatype ManifestFile = Malformed | Manifest(version: string, sha256: string, tested: bool)

  datatype Pair = Pair(binary: Option<Bytes>, manifest: Option<ManifestFile>)

  /** `createdAt` is absent while the backup has no readable record. */
  datatype Backup = Backup(createdAt: Option<int>, files: Pair)

  /** How far the operation that wrote the marker has come. */
  datatype Stage =
    | Prepared | Stopped | ReplacingBinary | BinaryReplaced | ReplacingManifest | Starting
    | RollbackPrepared | RollbackStopped | RollbackStarting

  /** The status a marker is archived under. */
  datatype Ending = EndInstalled | EndRolledBack | EndRollbackInstalled | EndRollbackRestored | EndRecovered

  datatype MarkerFile = Garbled | Marker(recovery: string, stage: Stage)

  /** `archive` lists how archived markers ended, `launches` the pair found at each start of the Sidecar. */
  datatype Disk = Disk(
    installed: Pair,
    backups: map<string, Backup>,
    marker: Option<MarkerFile>,
    archive: seq<Ending>,
    staging: map<string, Pair>,
    running: bool,
    launches: seq<Pair>)

  type Verifier = (Bytes, string) -> bool

  predicate IsComplete(p: Pair) {
    p.binary.Some? && p.manifest.Some?
  }

  predicate ValidPair(v: Verifier, p: Pair) {
    && p.binary.Some? && p.manifest.Some? && p.manifest.value.Manifest?
    && p.manifest.value.tested && v(p.binary.value, p.manifest.value.sha256)
  }

  /** The pattern `^[A-Za-z0-9][A-Za-z0-9._-]{0,127}$`, matched in full. */
  predicate SafeId(s: string) {
    && 1 <= |s| <= 128
    && IsAlnum(s[0])
    && forall i :: 0 <= i < |s| ==> IsAlnum(s[i]) || s[i] in "._-"
  }

  predicate IsAlnum(c: char) {
    'A' <= c <= 'Z' || 'a' <= c <= 'z' || '0' <= c <= '9'
  }

  function BackupName(version: string, stamp: string): string {
    version + "-" + stamp
  }

  const NO_FILES := Pair(None, None)

  function BackupAt(d: Disk, n: string): Backup {
    if n in d.backups then d.backups[n] else Backup(None, NO_FILES)
  }

  /* Which backup to restore */

  predicate LexLess(a: string, b: string) {
    b != [] && (a == [] || a[0] < b[0] || (a[0] == b[0] && LexLess(a[1..], b[1..])))
  }

  lemma {:induction false} LexOrder(a: string, b: string, c: string)
    ensures !LexLess(a, a)
    ensures a == b || LexLess(a, b) || LexLess(b, a)
    ensures LexLess(a, b) && LexLess(b, c) ==> LexLess(a, c)
  {
    if a != [] && b != [] && c != [] {
      LexOrder(a[1..], b[1..], c[1..]);
    } else if a != [] && b != [] {
      LexOrder(a[1..], b[1..], c);
    } else if a != [] {
      LexOrder(a[1..], b, c);
    }
    if a != [] && b != [] && a[0] == b[0] && a[1..] == b[1..] {
      assert a == [a[0]] + a[1..] && b == [b[0]] + b[1..];
    }
  }

  predicate Restorable(v: Verifier, d: Disk, n: string) {
    n in d.backups && d.backups[n].createdAt.Some? && ValidPair(v, d.backups[n].files)
  }

  /** Creation time first, then the name. */
  predicate Older(d: Disk, m: string, n: string)
    requires m in d.backups && n in d.backups && d.backups[m].createdAt.Some? && d.backups[n].createdAt.Some?
  {
    var a, b := d.backups[m].createdAt.value, d.backups[n].createdAt.value;
    a < b || (a == b && LexLess(m, n))
  }

  ghost predicate IsLatest(v: Verifier, d: Disk, n: string) {
    && Restorable(v, d, n)
    && forall m :: Restorable(v, d, m) && m != n ==> Older(d, m, n)
  }

  ghost predicate IsLatestOf(v: Verifier, d: Disk, ns: set<string>, n: string) {
    && n in ns && Restorable(v, d, n)
    && forall m :: m in ns && Restorable(v, d, m) && m != n ==> Older(d, m, n)
  }

  lemma {:induction false} LatestExists(v: Verifier, d: Disk, ns: set<string>, some: string)
    requires some in ns && Restorable(v, d, some)
    ensures exists n :: IsLatestOf(v, d, ns, n)
  {
    if m :| m in ns && m != some && Restorable(v, d, m) {
      LatestExists(v, d, ns - {m}, some);
      var n :| IsLatestOf(v, d, ns - {m}, n);
      LexOrder(m, n, n);
      if Older(d, n, m) {
        forall k | k in ns && Restorable(v, d, k) && k != m ensures Older(d, k, m) {
          LexOrder(k, n, m);
        }
        assert IsLatestOf(v, d, ns, m);
      } else {
        assert IsLatestOf(v, d, ns, n);
      }
    } else {
      assert IsLatestOf(v, d, ns, some);
    }
  }

  lemma LatestIsUnique(v: Verifier, d: Disk, m: string, n: string)
    requires IsLatest(v, d, m) && IsLatest(v, d, n)
    ensures m == n
  {
    LexOrder(m, n, m);
  }

  ghost function LatestBackup(v: Verifier, d: Disk): (r: Option<string>)
    ensures r.Some? ==> IsLatest(v, d, r.value)
    ensures r.None? ==> forall n :: !Restorable(v, d, n)
  {
    if some :| Restorable(v, d, some) then
      LatestExists(v, d, d.backups.Keys, some);
      var n :| IsLatestOf(v, d, d.backups.Keys, n);
      Some(n)
    else
      None
  }

  /** The backup named by the marker, if the name is safe and the backup valid. */
  predicate MarkerUsable(v: Verifier, d: Disk) {
    && d.marker.Some? && d.marker.value.Marker?
    && SafeId(d.marker.value.recovery)
    && d.marker.value.recovery in d.backups
    && ValidPair(v, d.backups[d.marker.value.recovery].files)
  }

  ghost function RecoverySource(v: Verifier, d: Disk): Option<string> {
    if MarkerUsable(v, d) then Some(d.marker.value.recovery) else LatestBackup(v, d)
  }

  /* Steps */

  datatype Location = Staged(id: string) | Saved(name: string)

  function Files(d: Disk, from: Location): Pair {
    match from
    case Staged(id) => if id in d.staging then d.staging[id] else NO_FILES
    case Saved(name) => BackupAt(d, name).files
  }

  datatype Step =
    | MakeBackupDir(name: string)
    | WriteRecord(name: string, at: int)
    | SaveBinary(name: string)
    | SaveManifest(name: string)
    | CheckBackup(name: string)
    | WriteMarker(recovery: string, stage: Stage)
    | Stop
    | StopQuietly
    | CaptureFailed
    | CheckComplete(from: Location)
    | CopyTemporary
    | PlaceBinary(from: Location)
    | PlaceManifest(from: Location)
    | Start
    | Archive(ending: Ending)

  /** A step that cannot be carried out can only raise. */
  predicate CanDo(v: Verifier, step: Step, d: Disk) {
    match step
    case MakeBackupDir(n) => n !in d.backups
    case SaveBinary(_) => d.installed.binary.Some?
    case SaveManifest(_) => d.installed.manifest.Some?
    case CheckBackup(n) => ValidPair(v, BackupAt(d, n).files)
    case CheckComplete(from) => Files(d, from).binary.Some? && Files(d, from).manifest.Some?
    case _ => true
  }

  function Apply(step: Step, d: Disk): Disk {
    match step
    case MakeBackupDir(n) => d.(backups := d.backups[n := Backup(None, NO_FILES)])
    case WriteRecord(n, at) => d.(backups := d.backups[n := BackupAt(d, n).(createdAt := Some(at))])
    case SaveBinary(n) =>
      var b := BackupAt(d, n);
      d.(backups := d.backups[n := b.(files := b.files.(binary := d.installed.binary))])
    case SaveManifest(n) =>
      var b := BackupAt(d, n);
      d.(backups := d.backups[n := b.(files := b.files.(manifest := d.installed.manifest))])
    case WriteMarker(n, stage) => d.(marker := Some(Marker(n, stage)))
    case Stop => d.(running := false)
    case StopQuietly => d.(running := false)
    case PlaceBinary(from) => d.(installed := d.installed.(binary := Files(d, from).binary))
    case PlaceManifest(from) => d.(installed := d.installed.(manifest := Files(d, from).manifest))
    case Start => d.(running := true, launches := d.launches + [d.installed])
    case Archive(ending) =>
      if d.marker.None? then d else d.(marker := None, archive := d.archive + [ending])
    case _ => d
  }

  /**
   What a step may leave behind when it raises or the program stops during it. Renames, directory
   creation and the marker are atomic; a copy may leave any content, a record is unreadable until
   complete, and a failed start or stop leaves the Sidecar running or not.
   */
  predicate Interrupted(step: Step, d: Disk, after: Disk) {
    match step
    case SaveBinary(n) =>
      || after == d
      || (&& n in d.backups && n in after.backups
          && var b := d.backups[n];
             after == d.(backups := d.backups[n := b.(files := b.files.(binary := after.backups[n].files.binary))]))
    case SaveManifest(n) =>
      || after == d
      || (&& n in d.backups && n in after.backups
          && var b := d.backups[n];
             after == d.(backups := d.backups[n := b.(files := b.files.(manifest := after.backups[n].files.manifest))]))
    case Stop => after == d.(running := after.running)
    case StopQuietly => after == d.(running := after.running)
    case Start =>
      after == d.(running := after.running) || after == d.(running := after.running, launches := d.launches + [d.installed])
    case _ => after == d
  }

  /* Plans */

  datatype Kind = Install | Rollback | Recover

  /**
   One operation: what it installs (`source`, holding `target`), the backup it would fall back to
   (`backup`, holding `undo`), and the pair found installed when it began. `saves` says that the
   backup is made by the operation itself.
   */
  datatype Operation = Operation(
    kind: Kind, source: Location, target: Pair,
    backup: string, undo: Pair, saves: bool, at: int, before: Pair)

  /** Before the guarded block, inside it, in its exception handler, or in a recovery. */
  datatype Phase = Preparing | Applying | Undoing | Recovering

  function Length(phase: Phase, op: Operation): nat {
    match phase
    case Preparing => if op.saves then 6 else 1
    case Applying => if op.kind.Install? then 12 else 10
    case Undoing => 9
    case Recovering => 7
  }

  function StepAt(phase: Phase, op: Operation, pc: nat): Step {
    match phase
    case Preparing => PreparingStep(op, pc)
    case Applying => if op.kind.Install? then InstallStep(op, pc) else RollbackStep(op, pc)
    case Undoing =>
      if pc == 0 then StopQuietly
      else if pc == 1 then CaptureFailed
      else RestoreStep(Saved(op.backup), if op.kind.Install? then EndRolledBack else EndRollbackRestored, pc - 2)
    case Recovering => RestoreStep(op.source, EndRecovered, pc)
  }

  function PreparingStep(op: Operation, pc: nat): Step {
    if !op.saves || pc == 5 then
      WriteMarker(op.backup, if op.kind.Install? then Prepared else RollbackPrepared)
    else match pc
      case 0 => MakeBackupDir(op.backup)
      case 1 => WriteRecord(op.backup, op.at)
      case 2 => SaveBinary(op.backup)
      case 3 => SaveManifest(op.backup)
      case _ => CheckBackup(op.backup)
  }

  function InstallStep(op: Operation, pc: nat): Step {
    match pc
    case 0 => Stop
    case 1 => WriteMarker(op.backup, Stopped)
    case 2 => CopyTemporary
    case 3 => WriteMarker(op.backup, ReplacingBinary)
    case 4 => PlaceBinary(op.source)
    case 5 => WriteMarker(op.backup, BinaryReplaced)
    case 6 => CopyTemporary
    case 7 => WriteMarker(op.backup, ReplacingManifest)
    case 8 => PlaceManifest(op.source)
    case 9 => WriteMarker(op.backup, Starting)
    case 10 => Start
    case _ => Archive(EndInstalled)
  }

  function RollbackStep(op: Operation, pc: nat): Step {
    match pc
    case 0 => Stop
    case 1 => WriteMarker(op.backup, RollbackStopped)
    case 7 => WriteMarker(op.backup, RollbackStarting)
    case 8 => Start
    case 9 => Archive(EndRollbackInstalled)
    case _ => RestoreStep(op.source, EndRollbackInstalled, pc - 2)
  }

  /** Restoring a pair from a backup, starting the Sidecar and archiving the marker. */
  function RestoreStep(from: Location, ending: Ending, pc: nat): Step {
    match pc
    case 0 => CheckComplete(from)
    case 1 => CopyTemporary
    case 2 => CopyTemporary
    case 3 => PlaceBinary(from)
    case 4 => PlaceManifest(from)
    case 5 => Start
    case _ => Archive(ending)
  }
}
