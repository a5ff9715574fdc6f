# vcluster-backup, modelled in Dafny

vcluster-backup is a small Go program. It runs beside a k3s control plane and works in one of three modes:

- By default it wakes every `backupInterval` minutes and copies the k3s state database to a temporary file. It encrypts the copy with AES-256-GCM under the SHA-256 digest of a passphrase, uploads the result to an S3 bucket as `backup_<timestamp>.db.enc`, and removes the temporary files.
- With `-list` it lists the bucket's objects.
- With `-restore` it fetches one object, decrypts it and writes the plaintext to `<name>.restore`.

This project models all of that logic:

- the encrypted-envelope codec (`Envelope`)
- the listing fold (`Listing`)
- the defaults applied after flag parsing (`Settings`)
- one backup cycle (`Backup`)
- the tick/interrupt loop (`Scheduler`)
- the restore branch with its inline decryption closure (`Restore`)

The code the program calls but does not implement is abstract, in `Primitives`. SHA-256 and AES-GCM `Seal`/`Open` are function-valued fields of a `Crypto` value. The round trip of `Open` over `Seal` is the hypothesis `OpensWhatItSeals`, stated on the lemmas that need it. `aes.NewCipher` is modelled by its key-length check. Each file-system, random-source and object-store call is modelled only by its outcome, which is an input. The clock's timestamp and the temporary directory are inputs too.

Behaviour the model keeps exactly as the code has it, although a user of the program would expect otherwise:

- **Short ciphertext counts as success.** When the input is shorter than the 12-byte nonce, `decryptFileAES256` returns `nil, err`. At that point `err` is still nil, so the call reports success with empty plaintext. The inline closure in the restore branch does the same. A restore of such an object therefore writes an empty `.restore` file and exits 0. A user would expect such input to be rejected as malformed ciphertext.
- **Failures leave temporary files behind.** A failure at any step of a backup cycle ends the cycle with `continue`. This skips the removal of both temporary files, so after a failed upload they stay on disk. A user would expect them to be removed whatever happens. The model follows the code, and `CleanupOnlyAfterUpload` states what the code does.
- **The same setting names both files.** `backupFile` names the database a cycle copies. It is also the object name a restore fetches, and the base of the restore's output path.
- **An interrupt does not cancel a cycle cleanly.** The main goroutine waits on the same one-slot interrupt channel as the backup loop (vcluster-backup.go:254-255 and 349). An interrupt that arrives during a cycle is taken by main, and the process exits mid-cycle. The temporary files then stay on disk, and an upload may be cut off. An interrupt taken by the idle loop ends the loop, but main keeps waiting until a second interrupt arrives. The model sees interrupts only between cycles; see `Scheduler.Run` under "Left out".

## Model

| member | source | states |
|---|---|---|
| `Envelope.Encrypt` | vcluster-backup.go:28-46 | Only the random source can make encryption fail: the key is a 32-byte digest, so the cipher set-up always succeeds. On success the output starts with the 12-byte nonce and continues with `Seal` of the data, under SHA-256 of the passphrase, that nonce and empty associated data. |
| `Envelope.EncryptFile` | vcluster-backup.go:28-48 | Succeeds exactly when both the random source and the file write succeed. The file then holds the envelope `Encrypt` produces. On failure it returns the random source's error or, if that succeeded, the write's error. |
| `Envelope.Decrypt` | vcluster-backup.go:51-75 | Input shorter than the nonce gives success with empty plaintext. Longer input is split at 12 bytes: the prefix is the nonce and only the rest goes to `Open`. The result is the opened plaintext if `Open` authenticates, otherwise an authentication error and no plaintext. No other error is possible. |
| `Envelope.RoundTrip` | vcluster-backup.go:28-75 | Under the AEAD round-trip hypothesis, encryption under any nonce succeeds. Decrypting its output with the same passphrase gives back the original data. |
| `Envelope.FileRoundTrip` | vcluster-backup_test.go:25-50 | Whatever a successful `EncryptFile` leaves in the file decrypts, with the same passphrase, to the data it was given. This is the property the Go test checks. |
| `Listing.ListObjects` | vcluster-backup.go:77-89 | Succeeds exactly when no entry of the stream carries an error, and then returns every entry in stream order. Otherwise it returns the error of the first failing entry and none of the entries gathered before it. |
| `Settings.WithDefaults` | vcluster-backup.go:154-160 | After defaulting, neither setting is empty. An empty interval becomes "60" and an empty backup file becomes /data/server/db/state.db. A setting that was given is kept unchanged. |
| `Backup.ObjectNameInjective` | vcluster-backup.go:275-276 | Distinct timestamps give distinct object names `backup_<ts>.db.enc`. |
| `Backup.UploadedFileNamedAsObject` | vcluster-backup.go:275-300 | The uploaded file's path, `Join(TempDir, backup_<ts>.db) + ".enc"`, is the temporary directory joined with the object name itself. |
| `Backup.StepsRun` | vcluster-backup.go:267-337 | Under strict gating, the number of steps that run reaches up to and including the first failure, or covers all steps. Every step before the last one that ran succeeded, and if the cycle stopped early, the last step that ran failed. |
| `Backup.RunCycle` | vcluster-backup.go:264-338 | The source's straight-line pass with `continue` on each failure produces exactly the gated specification `CycleOutcome`. It ran the prefix of the eight planned operations counted by `StepsRun`. It reports the failing step's error. It stores the envelope under `backup_<ts>.db.enc` exactly when the upload ran and succeeded. |
| `Backup.StepGating` | vcluster-backup.go:267-337 | The k-th planned operation appears among those run if and only if every earlier operation succeeded. |
| `Backup.CleanupOnlyAfterUpload` | vcluster-backup.go:318-337 | The plaintext temporary file is removed only after a successful upload. The encrypted one is removed only after the plaintext one was removed. A cycle that stored nothing removes nothing. |
| `Backup.SuccessfulCycle` | vcluster-backup.go:264-338 | When every step succeeds, all eight operations run, no error is reported, and the object `"backup_" + ts + ".db.enc"` is stored with the envelope of the snapshot. |
| `Backup.StoredBackupDecrypts` | vcluster-backup.go:303-322 | An uploaded object lands in the configured bucket under `backup_<ts>.db.enc`. Decrypting it with the configured passphrase gives back the snapshot the cycle read. |
| `Scheduler.TicksBeforeSignalIsPrefix` | vcluster-backup.go:261-345 | The ticks served are exactly the events before the first signal: each is a tick, in order, and the event right after them, if any, is the signal. |
| `Scheduler.Run` | vcluster-backup.go:260-346 | The loop terminates exactly when a signal is observed. It runs one cycle for each tick before the first signal and none after it; in the model an interrupt is observed only between cycles. The j-th report is the outcome of the j-th such tick. |
| `Scheduler.NoSignalServesAll` | vcluster-backup.go:261-345 | When the interval elapses for each of a sequence of cycle inputs and no interrupt comes, every tick is served, in order. By `Run`'s contract the loop then has not terminated. |
| `Scheduler.SignalEndsLoop` | vcluster-backup.go:340-343 | After ticks and then a signal, exactly those ticks are served, whatever events follow the signal. |
| `Scheduler.TwoTicksThenSignal` | vcluster-backup.go:261-344 | Two ticks followed by an interrupt serve exactly those two ticks, in order. |
| `Restore.DecryptInline` | vcluster-backup.go:211-238 | The restore branch's inline closure returns the same result as `decryptFileAES256` for every input and passphrase. |
| `Restore.Restore` | vcluster-backup.go:194-251 | The object fetched is the configured bucket's object named by the backup-file setting. The restore file is written only after the fetch, the download and the decryption all succeed. Only then can the exit status be 0, and any failure gives status 1. The file is `<backupFile>.restore` and holds the decrypted plaintext. |
| `Restore.BackupThenRestore` | vcluster-backup.go:244-245 | Restoring an object a cycle uploaded, from the same bucket and with the same passphrase, fetches exactly that bucket and object name and exits 0. It writes `backup_<ts>.db.enc.restore` holding the snapshot the cycle read. |
| `Restore.ShortObjectRestoresEmpty` | vcluster-backup.go:228-231 | An object shorter than the nonce is not rejected. The restore fetches the configured object, writes an empty `.restore` file and exits 0. |

## Left out

- SHA-256, AES and GCM internals are not modelled. Tamper detection, rejection of a wrong key and nonce uniqueness are therefore not stated; they are properties of those primitives, not of this program. `OpensWhatItSeals` is the only assumption about them.
- The nonce length is fixed at 12 bytes, the standard GCM nonce that `cipher.NewGCM` uses.
- `cipher.NewGCM` is modelled as never failing, since it rejects only block sizes other than 16 bytes.
- The MinIO client is left out: its construction, TLS, tracing, and the network behaviour of `GetObject`, `FPutObject` and `ListObjects`. Only their success or failure, and the bytes or entries they yield, appear, as inputs.
- File-system effects are left out. A cycle's read-back contents are an input and are not tied to the contents of the database file. File modes 0777/0644, the `defer Close` calls that pile up inside the loop, and partial files after a failed write are not modelled.
- Concurrency and timing are left out: the goroutine and the `select` on `time.After` and the signal channel. The loop sees a finite sequence of tick and signal events. Without a signal, the model stops after the last event, where the program would keep waiting.
- Scheduler.Run: sees an interrupt only between cycles, so each cycle it starts runs to its end. In the program the main goroutine also receives from the one-slot interrupt channel (vcluster-backup.go:254-255 and 349). An interrupt during a cycle is taken by main and ends the process mid-cycle, leaving the temporary files and possibly a cut-off upload. If the idle loop takes the interrupt instead, main blocks until a second one. Preemption by process exit is outside a sequential model.
- The interval's `strconv.Atoi` conversion, including how it swallows errors, is not modelled: the interval only sets timing.
- Flag parsing and the unused `parseEnv` are not modelled. Neither are logging and the `secretKey[0:2]` and `encKey[0:2]` slices, which panic on values shorter than two bytes. The flag-driven choice between list, restore and backup modes is not modelled either: it is configuration, not logic.
- `Backup.Join` models `filepath.Join` for a directory and a plain file name. It does not perform `Clean`'s normalisation of `.`, `..` or repeated separators in the directory.
- The timestamp string, `time.Now().Format("20060102150405")`, is an input.
- The unused `filename` parameter of `decryptFileAES256` is dropped.
- The Go test calls `encryptFile`, a function the source does not define. `FileRoundTrip` states the round trip the test means, through `encryptFileAES256`.
- Errors from the operating system, the random source and the store are opaque `External` values. The model does not tell apart, say, a missing file from a refused connection.
