/** The resolved configuration the backup, restore and list modes run with,
    and the defaults applied after flag parsing. */
module Settings {
  import opened Primitives

  const DefaultBackupInterval: string := "60"
  const DefaultBackupFile: string := "/data/server/db/state.db"

  /** The two settings that get a default when they come out of flag parsing
      empty. The interval stays a string: it is in minutes, and converting it
      is the scheduler's business. */
  datatype Flags = Flags(backupInterval: string, backupFile: string)

  /** An empty interval becomes "60" and an empty backup file becomes the
      k3s state database; a value that is set is kept as it is. */
  function WithDefaults(f: Flags): (r: Flags)
    ensures r.backupInterval != "" && r.backupFile != ""
    ensures f.backupInterval != "" ==> r.backupInterval == f.backupInterval
    ensures f.backupFile != "" ==> r.backupFile == f.backupFile
    ensures f.backupInterval == "" ==> r.backupInterval == DefaultBackupInterval
    ensures f.backupFile == "" ==> r.backupFile == DefaultBackupFile
  {
    var interval := if f.backupInterval == "" then DefaultBackupInterval else f.backupInterval;
    var file := if f.backupFile == "" then DefaultBackupFile else f.backupFile;
    Flags(interval, file)
  }

  /** What a backup cycle and a restore read from the configuration.
      `backupFile` is both the database file a cycle snapshots and the object
      name a restore fetches; `tempDir` is what os.TempDir returns. */
  datatype Config = Config(backupFile: string, bucketName: string, encKey: seq<byte>, tempDir: string)
}
