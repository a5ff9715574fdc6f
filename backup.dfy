/** One backup cycle: snapshot the database file into a temporary file, read
    it back, encrypt it into a second temporary file, upload that, then remove
    both temporary files. Each step runs only if every step before it
    succeeded; the first failure ends the cycle, skipping the removals too. */
module Backup {
  import opened Primitives
  import opened Envelope
  import opened Settings

  /** What the outside world answers during one cycle: the clock's timestamp
      (formatted as 20060102150405) and the outcome of every file, random
      source and store operation the cycle performs. */
  datatype TickInputs = TickInputs(
    timestamp: string,
    open: Status,                 // os.Open(backupFile)
    create: Status,               // os.Create(temporary plaintext path)
    copy: Status,                 // io.Copy from the database into it
    readBack: Result<seq<byte>>,  // os.ReadFile(temporary plaintext path)
    entropy: Result<Nonce>,       // io.ReadFull(rand.Reader, nonce)
    writeEncrypted: Status,       // os.WriteFile(temporary encrypted path)
    upload: Status,               // FPutObject
    removePlain: Status,          // os.Remove(temporary plaintext path)
    removeEncrypted: Status)      // os.Remove(temporary encrypted path)

  /** The operations a cycle performs, with the names and paths they use. */
  datatype Action =
    | OpenSource(path: string)
    | CreateTemp(path: string)
    | CopyInto(path: string)
    | ReadTemp(path: string)
    | EncryptInto(path: string)
    | Upload(bucket: string, object: string, path: string)
    | Remove(path: string)

  /** An object the cycle put into the bucket. */
  datatype StoredObject = StoredObject(bucket: string, name: string, contents: seq<byte>)

  /** What one cycle did: the operations it attempted in order (the last one
      is the one that failed, if any did), the error that ended it, and the
      object it uploaded. */
  datatype CycleReport = CycleReport(ran: seq<Action>, failure: Option<Error>, stored: Option<StoredObject>)

  // ---- Names ----

  /** fmt.Sprintf("backup_%s.db", timestamp). */
  function SnapshotName(timestamp: string): string {
    "backup_" + timestamp + ".db"
  }

  /** The object name: the snapshot name with ".enc" appended. */
  function ObjectName(timestamp: string): string {
    SnapshotName(timestamp) + ".enc"
  }

  /** filepath.Join of a directory and a file name without a separator. */
  function Join(dir: string, name: string): string {
    if dir == "" then name
    else if dir[|dir| - 1] == '/' then dir + name
    else dir + "/" + name
  }

  function SnapshotPath(cfg: Config, timestamp: string): string {
    Join(cfg.tempDir, SnapshotName(timestamp))
  }

  function EncryptedPath(cfg: Config, timestamp: string): string {
    SnapshotPath(cfg, timestamp) + ".enc"
  }

  /** Different timestamps give different object names, so two cycles that
      start in different seconds never overwrite each other's backup. */
  lemma {:induction false} ObjectNameInjective(t1: string, t2: string)
    requires ObjectName(t1) == ObjectName(t2)
    ensures t1 == t2
  {
    var n1, n2 := ObjectName(t1), ObjectName(t2);
    assert |t1| == |t2|;
    forall i | 0 <= i < |t1| ensures t1[i] == t2[i] {
      assert n1[7 + i] == t1[i];
      assert n2[7 + i] == t2[i];
    }
  }

  /** The file the cycle uploads lies in the temporary directory under the
      same name as the object it becomes. */
  lemma UploadedFileNamedAsObject(cfg: Config, timestamp: string)
    ensures EncryptedPath(cfg, timestamp) == Join(cfg.tempDir, ObjectName(timestamp))
  {
  }

  // ---- The cycle as a specification ----

  /** The eight operations of a cycle, in the order the source performs them. */
  function Plan(cfg: Config, timestamp: string): (plan: seq<Action>)
    ensures |plan| == 8
  {
    var plain, encrypted := SnapshotPath(cfg, timestamp), EncryptedPath(cfg, timestamp);
    [ OpenSource(cfg.backupFile), CreateTemp(plain), CopyInto(plain), ReadTemp(plain),
      EncryptInto(encrypted), Upload(cfg.bucketName, ObjectName(timestamp), encrypted),
      Remove(plain), Remove(encrypted) ]
  }

  /** What encryptFileAES256 leaves in the encrypted temporary file, given
      what was read back from the snapshot. */
  function Sealed(c: Crypto, cfg: Config, t: TickInputs): Result<seq<byte>> {
    match t.readBack
    case Err(e) => Err(e)
    case Ok(contents) => EncryptFile(c, contents, cfg.encKey, t.entropy, t.writeEncrypted)
  }

  /** The outcome each of the eight planned operations would have, if run. */
  function StepStatuses(c: Crypto, cfg: Config, t: TickInputs): (st: seq<Status>)
    ensures |st| == 8
  {
    [ t.open, t.create, t.copy, StatusOf(t.readBack), StatusOf(Sealed(c, cfg, t)),
      t.upload, t.removePlain, t.removeEncrypted ]
  }

  /** How many operations run when each runs only after all earlier ones
      succeeded: up to and including the first failure, or all of them. */
  function StepsRun(st: seq<Status>): (n: nat)
    ensures st != [] ==> 1 <= n <= |st|
    ensures st == [] ==> n == 0
    ensures forall i :: 0 <= i < n - 1 ==> st[i].Done?
    ensures n < |st| ==> st[n - 1].Failed?
  {
    if st == [] then 0
    else if st[0].Failed? then 1
    else 1 + StepsRun(st[1..])
  }

  /** The report of one cycle: the planned operations that ran, the error
      of the one that failed, and the uploaded object when the upload ran
      and succeeded. */
  function CycleOutcome(c: Crypto, cfg: Config, t: TickInputs): CycleReport {
    var st := StepStatuses(c, cfg, t);
    var n := StepsRun(st);
    var stored :=
      if n > 5 && st[5].Done? then
        assert st[4].Done?;
        Some(StoredObject(cfg.bucketName, ObjectName(t.timestamp), Sealed(c, cfg, t).value))
      else None;
    CycleReport(Plan(cfg, t.timestamp)[..n], if st[n - 1].Failed? then Some(st[n - 1].error) else None, stored)
  }

  /** StepsRun counts up to and including the first failure. */
  lemma StepsRunAtFailure(st: seq<Status>, k: nat)
    requires k < |st| && st[k].Failed?
    requires forall i :: 0 <= i < k ==> st[i].Done?
    ensures StepsRun(st) == k + 1
  {
  }

  /** An operation ran only if every operation planned before it succeeded;
      a cycle that stopped early names the error of the step that stopped it. */
  lemma StepGating(c: Crypto, cfg: Config, t: TickInputs, k: nat)
    requires k < 8
    ensures var r := CycleOutcome(c, cfg, t);
      Plan(cfg, t.timestamp)[k] in r.ran <==> forall i :: 0 <= i < k ==> StepStatuses(c, cfg, t)[i].Done?
  {
  }

  /** The temporary files are removed only after the upload succeeded, and
      the encrypted one only after the snapshot was removed. */
  lemma CleanupOnlyAfterUpload(c: Crypto, cfg: Config, t: TickInputs)
    ensures var r := CycleOutcome(c, cfg, t);
      && (Remove(SnapshotPath(cfg, t.timestamp)) in r.ran ==> t.upload.Done? && r.stored.Some?)
      && (Remove(EncryptedPath(cfg, t.timestamp)) in r.ran ==> t.removePlain.Done?)
      && (r.stored.None? ==> forall a :: a in r.ran ==> !a.Remove?)
  {
    var r, st, plan := CycleOutcome(c, cfg, t), StepStatuses(c, cfg, t), Plan(cfg, t.timestamp);
    var n := StepsRun(st);
    var plain, encrypted := SnapshotPath(cfg, t.timestamp), EncryptedPath(cfg, t.timestamp);
    assert plain != encrypted by { assert |encrypted| == |plain| + 4; }
    if Remove(plain) in r.ran {
      var j :| 0 <= j < n && plan[j] == Remove(plain);
      assert j == 6;
      assert st[5] == t.upload && st[5].Done?;
    }
    if Remove(encrypted) in r.ran {
      var j :| 0 <= j < n && plan[j] == Remove(encrypted);
      assert j == 7;
      assert st[6] == t.removePlain && st[6].Done?;
    }
  }

  /** When every step succeeds the cycle runs all eight operations, reports
      no error and stores the encrypted snapshot under the timestamped name. */
  lemma SuccessfulCycle(c: Crypto, cfg: Config, t: TickInputs)
    requires t.open.Done? && t.create.Done? && t.copy.Done? && Sealed(c, cfg, t).Ok?
    requires t.upload.Done? && t.removePlain.Done? && t.removeEncrypted.Done?
    ensures var r := CycleOutcome(c, cfg, t);
      && r.ran == Plan(cfg, t.timestamp)
      && r.failure == None
      && r.stored == Some(StoredObject(cfg.bucketName, "backup_" + t.timestamp + ".db.enc",
                                       Sealed(c, cfg, t).value))
  {
    StepsRunAll(StepStatuses(c, cfg, t));
    assert ObjectName(t.timestamp) == "backup_" + t.timestamp + ".db.enc";
  }

  /** What a cycle uploads is the envelope of the snapshot it read back:
      decrypting it with the configured passphrase gives the snapshot. */
  lemma StoredBackupDecrypts(c: Crypto, cfg: Config, t: TickInputs)
    requires OpensWhatItSeals(c)
    requires CycleOutcome(c, cfg, t).stored.Some?
    ensures t.readBack.Ok?
    ensures var o := CycleOutcome(c, cfg, t).stored.value;
      && o.bucket == cfg.bucketName
      && o.name == ObjectName(t.timestamp)
      && Decrypt(c, o.contents, cfg.encKey) == Ok(t.readBack.value)
  {
    var st := StepStatuses(c, cfg, t);
    assert st[3].Done? && st[4].Done?;
    FileRoundTrip(c, t.readBack.value, cfg.encKey, t.entropy, t.writeEncrypted);
  }

  /** With no failure at all, every operation runs. */
  lemma StepsRunAll(st: seq<Status>)
    requires forall i :: 0 <= i < |st| ==> st[i].Done?
    ensures StepsRun(st) == |st|
  {
  }

  // ---- The cycle as the source runs it ----

  /** One pass through the tick branch of the backup goroutine. Every failed
      step is logged and ends the pass with `continue`, so nothing after it
      runs, not even the removal of the temporary files. */
  method RunCycle(c: Crypto, cfg: Config, t: TickInputs) returns (report: CycleReport)
    ensures report == CycleOutcome(c, cfg, t)
  {
    ghost var st := StepStatuses(c, cfg, t);
    ghost var plan := Plan(cfg, t.timestamp);
    var ran := [OpenSource(cfg.backupFile)];
    assert ran == plan[..1];
    if t.open.Failed? {
      StepsRunAtFailure(st, 0);
      return CycleReport(ran, Some(t.open.error), None);
    }
    var snapshotName := SnapshotName(t.timestamp);
    var objectName := snapshotName + ".enc";
    var snapshotPath := Join(cfg.tempDir, snapshotName);
    ran := ran + [CreateTemp(snapshotPath)];
    assert ran == plan[..2];
    if t.create.Failed? {
      StepsRunAtFailure(st, 1);
      return CycleReport(ran, Some(t.create.error), None);
    }
    ran := ran + [CopyInto(snapshotPath)];
    assert ran == plan[..3];
    if t.copy.Failed? {
      StepsRunAtFailure(st, 2);
      return CycleReport(ran, Some(t.copy.error), None);
    }
    var encryptedPath := snapshotPath + ".enc";
    ran := ran + [ReadTemp(snapshotPath)];
    assert ran == plan[..4];
    if t.readBack.Err? {
      StepsRunAtFailure(st, 3);
      return CycleReport(ran, Some(t.readBack.error), None);
    }
    var contents := t.readBack.value;
    ran := ran + [EncryptInto(encryptedPath)];
    var sealed := EncryptFile(c, contents, cfg.encKey, t.entropy, t.writeEncrypted);
    assert ran == plan[..5];
    if sealed.Err? {
      StepsRunAtFailure(st, 4);
      return CycleReport(ran, Some(sealed.error), None);
    }
    ran := ran + [Upload(cfg.bucketName, objectName, encryptedPath)];
    assert ran == plan[..6];
    if t.upload.Failed? {
      StepsRunAtFailure(st, 5);
      return CycleReport(ran, Some(t.upload.error), None);
    }
    var stored := Some(StoredObject(cfg.bucketName, objectName, sealed.value));
    ran := ran + [Remove(snapshotPath)];
    assert ran == plan[..7];
    if t.removePlain.Failed? {
      StepsRunAtFailure(st, 6);
      return CycleReport(ran, Some(t.removePlain.error), stored);
    }
    ran := ran + [Remove(encryptedPath)];
    assert ran == plan[..8];
    if t.removeEncrypted.Failed? {
      StepsRunAtFailure(st, 7);
      return CycleReport(ran, Some(t.removeEncrypted.error), stored);
    }
    return CycleReport(ran, None, stored);
  }
}
