/** The `-restore` mode: fetch the object named by the backup-file setting,
    read it into memory, decrypt it, and write the plaintext next to that name
    with ".restore" appended. Any failure ends the process with status 1. */
module Restore {
  import opened Primitives
  import opened Envelope
  import opened Settings
  import opened Backup

  /** What the store and the file system answer during a restore. */
  datatype RestoreInputs = RestoreInputs(
    fetch: Status,                // GetObject(bucketName, backupFile)
    download: Result<seq<byte>>,  // io.Copy of the object into a buffer
    write: Status)                // os.WriteFile of the restored file

  datatype LocalFile = LocalFile(path: string, contents: seq<byte>)

  /** The bucket and the object name a restore asks the store for. */
  datatype ObjectRef = ObjectRef(bucket: string, name: string)

  /** The object the restore fetched, the process exit status, and the file
      the restore wrote, if it did. */
  datatype RestoreOutcome = RestoreOutcome(fetched: ObjectRef, exitCode: nat, written: Option<LocalFile>)

  /** The decryption closure written inline in the restore branch. It derives
      the key, checks the length and splits the input on its own; it behaves
      exactly as decryptFileAES256, including the success it reports for
      input shorter than the nonce. */
  function DecryptInline(c: Crypto, ciphertext: seq<byte>, passphrase: seq<byte>): (r: Result<seq<byte>>)
    ensures r == Decrypt(c, ciphertext, passphrase)
  {
    var key := c.sha256(passphrase);
    match NewCipher(key)
    case Err(e) => Err(e)
    case Ok(block) =>
      match NewGCM(block)
      case Err(e) => Err(e)
      case Ok(gcm) =>
        if |ciphertext| < gcm.NonceSize() then
          Ok([])
        else
          gcm.Open(c, [], ciphertext[..gcm.NonceSize()], ciphertext[gcm.NonceSize()..], [])
  }

  function RestorePath(name: string): string {
    name + ".restore"
  }

  /** The restore branch of main. The object it asks for is the configured
      bucket's object named by the backup-file setting. The file is written
      only once the fetch, the download and the decryption have all
      succeeded, and only then can the process exit with status 0. */
  function Restore(c: Crypto, cfg: Config, inputs: RestoreInputs): (r: RestoreOutcome)
    ensures r.fetched == ObjectRef(cfg.bucketName, cfg.backupFile)
    ensures r.exitCode == 0 <==> r.written.Some?
    ensures r.exitCode == 0 || r.exitCode == 1
    ensures r.written.Some? <==>
      && inputs.fetch.Done?
      && inputs.download.Ok?
      && Decrypt(c, inputs.download.value, cfg.encKey).Ok?
      && inputs.write.Done?
    ensures r.written.Some? ==>
      r.written.value == LocalFile(cfg.backupFile + ".restore", Decrypt(c, inputs.download.value, cfg.encKey).value)
  {
    var fetched := ObjectRef(cfg.bucketName, cfg.backupFile);
    var failed := RestoreOutcome(fetched, 1, None);
    if inputs.fetch.Failed? || inputs.download.Err? then failed
    else
      match DecryptInline(c, inputs.download.value, cfg.encKey)
      case Err(_) => failed
      case Ok(plaintext) =>
        if inputs.write.Failed? then failed
        else RestoreOutcome(fetched, 0, Some(LocalFile(RestorePath(cfg.backupFile), plaintext)))
  }

  /** A backup restores to what it was made from: restoring the object a
      cycle uploaded, from the same bucket and with the same passphrase,
      fetches exactly that object and writes the snapshot the cycle read, to
      the object's name with ".restore" appended. */
  lemma BackupThenRestore(c: Crypto, cfg: Config, t: TickInputs, restoreCfg: Config)
    requires OpensWhatItSeals(c)
    requires CycleOutcome(c, cfg, t).stored.Some?
    requires restoreCfg.backupFile == CycleOutcome(c, cfg, t).stored.value.name
    requires restoreCfg.bucketName == cfg.bucketName
    requires restoreCfg.encKey == cfg.encKey
    ensures t.readBack.Ok?
    ensures var o := CycleOutcome(c, cfg, t).stored.value;
      Restore(c, restoreCfg, RestoreInputs(Done, Ok(o.contents), Done))
        == RestoreOutcome(ObjectRef(o.bucket, o.name), 0,
             Some(LocalFile("backup_" + t.timestamp + ".db.enc.restore", t.readBack.value)))
  {
    StoredBackupDecrypts(c, cfg, t);
    var o := CycleOutcome(c, cfg, t).stored.value;
    assert o.name + ".restore" == "backup_" + t.timestamp + ".db.enc.restore";
  }

  /** An object shorter than the nonce is not rejected: the restore succeeds
      and writes an empty file. */
  lemma ShortObjectRestoresEmpty(c: Crypto, cfg: Config, contents: seq<byte>)
    requires |contents| < StandardNonceSize
    ensures Restore(c, cfg, RestoreInputs(Done, Ok(contents), Done))
      == RestoreOutcome(ObjectRef(cfg.bucketName, cfg.backupFile), 0, Some(LocalFile(cfg.backupFile + ".restore", [])))
  {
  }
}
