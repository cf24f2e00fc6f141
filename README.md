# autorestic core, modelled in Dafny

autorestic runs `restic` for each configured location and reports the outcome to a
chat webhook. This project models three parts of that program:

- **The stream supervisor** (`invokeCommand`, module `Invoke`). It runs a command with
  `--json` appended and hands each standard-output line to a transformer. It keeps the
  value of the latest call. A failed exit becomes an error built from the captured
  standard error. The operating system is abstracted into a `Process` record: start
  errors, the lines read, the scanner's error, the standard-error text, whether copying
  it failed, and the exit error. A `Spawner` gives that record for a command line.
- **The line dispatch and the backup run** (module `Backup`). This covers
  `unmarshalThen`, `actionUntypedMessage`, `consume`, and the probe/backup/report
  sequence of `doBackup`. JSON decoding is done by `encoding/json`, which is not part of
  this model. Each decoder is a function value that may fail, bundled in a `Codec`
  (module `Deser`, which also holds the record shapes). A Go panic is a `Call.Panic`
  value. A `log.Fatal` exit is a `Fatal` / `FatalExit` outcome.
- **The log multiplexer** (`TeeLogger`, module `Tee`). It is a class over an array of
  handlers of an abstract type `H`. A `HandlerOps<H>` value gives each handler's
  `Enabled`, `Handle`, `WithAttrs` and `WithGroup`.

The model follows what the code does, including where that differs from the program's evident design:

- One would expect the backup result to be the last summary seen. The code
  (invoke.go:37) overwrites `lastTransformer` on every line, nil results included. The
  result is therefore the transformer's value on the last line: a status line, or a line
  of unknown kind, after a summary yields nil (`Backup.SummaryLostAfterLaterLine`).
- One would expect decode failures to be errors returned to the caller. The code
  panics (main.go:26, 38, 55), and `doBackup` recovers the panic, reports failure and
  exits. The model has the panic, not a returned error.
- main.go:41-42 reads `SecondsElapsed` and `SecondsRemaining` from a `StatusMessage`,
  but deser.go:17-25 declares no such fields. Those values only feed a log line, which
  is not modelled. `Deser.StatusMessage` has the fields deser.go declares.
- One would expect a failed repository probe to be reported as a failed backup. The code
  (main.go:170-173) only logs the error and returns, without calling `sendResult`. The
  model has this as the `ProbeRejected` outcome of `DoBackup`, with nothing reported.

## Model

| member | source | states |
|---|---|---|
| `Invoke.Scan` | invoke.go:32-38 | The loop's fold over the lines. With no lines it keeps its initial value. A value at the end of a non-empty stream is the call's value on the last line. A panic is the panic of the call on some line. |
| `Invoke.Invoked` | invoke.go:14-55 | invokeCommand's outcome as a function of the process report. A start error is fatal. A normal return needs a clean start and a clean scan. An error comes only from a failed exit, carries a nil result and reads stderr + ", " + the exit error. A zero exit returns no error. |
| `Invoke.InvokeCommand` | invoke.go:14-55 | The subprocess runs with the caller's arguments plus a final `--json`. The outcome is `Invoked` of that process. The transformer is fed exactly the stdout lines, once each and in order, up to and including the first line whose call panics. Nothing is fed when start-up fails. The loop keeps the last call's value. |
| `Invoke.ScanReturnsLast` | invoke.go:32-38 | If no call panics, the loop ends holding the transformer's value on the last line, nil or not. With no lines it holds the initial nil. |
| `Invoke.ScanStopsAtFirstPanic` | invoke.go:34-38 | The first panicking call ends the loop with that panic. |
| `Invoke.ScanPanicHasCause` | invoke.go:34-38 | A panic out of the loop is the panic of a call on some line, and every earlier line's call returned. |
| `Invoke.SuccessIsLastLine` | invoke.go:32-54 | A return with nil error happens exactly on a clean start, no panic, no scanner error and a zero exit. Its result is nil for an empty stream, otherwise the value on the last line. |
| `Invoke.FailureDiscardsResult` | invoke.go:50-51 | An error is returned exactly when the process exits with failure after a clean start and scan. The result is then nil and the error text is stderr + ", " + the exit error. |
| `Invoke.FatalCases` | invoke.go:17-42 | Pipe/start errors, and scanner errors after a scan without panic, end the program through `log.Fatal` carrying that error's text. They are never returned as errors. A start error wins. |
| `Invoke.StderrCopyFailureIgnored` | invoke.go:44-48 | Whether copying stderr failed changes neither the result nor the error. |
| `Backup.UnmarshalThen` | main.go:22-31 | The composed function panics with "when unmarshalling" + the error on a line that does not decode. On a line that decodes it is the continuation applied to the decoded value and the same line. |
| `Backup.UnmarshalThenCases` | main.go:22-31 | A decode error panics with "when unmarshalling" + the error, whatever the continuation is. Otherwise the outcome is the continuation on the decoded value and the same line. |
| `Backup.ActionUntypedMessage` | main.go:33-83 | A non-nil pointer exactly for kind "summary" with a decodable payload, and it holds that decoded record. A panic with the decoder's error exactly when a status or summary payload fails to decode. Status lines with a decodable payload, and unknown kinds, return nil; unknown kinds never panic. |
| `Backup.Consume` | main.go:85-89 | Returns a non-nil pointer to "unused" for every line, and never panics. |
| `Backup.BackupTransformer` | main.go:184-187 | The backup's transformer panics with "when unmarshalling" + the error when the envelope does not decode. Otherwise it is actionUntypedMessage on the decoded envelope and the same line. |
| `Backup.BackupTransformerOnLine` | main.go:184-187 | The composed backup transformer panics exactly on lines that are not well formed. It returns the decoded summary on a summary line and nil on every other well-formed line. |
| `Backup.BackupResultIsLastLine` | invoke.go:32-54 | A cleanly exiting backup of well-formed lines returns without error. It yields a summary exactly when the last line is a summary line, and the summary is that line's record. |
| `Backup.StatusOnlyYieldsNoSummary` | main.go:35-82 | A clean stream of status lines only yields (nil, nil). |
| `Backup.SummaryLostAfterLaterLine` | invoke.go:37 | A clean stream of well-formed lines whose last line is not a summary yields (nil, nil), whatever came before. A later status line or unknown-kind line overwrites an earlier summary with nil. |
| `Backup.MalformedLineAborts` | main.go:22-56 | The first line that is not well formed aborts the backup invocation with a panic. The panic carries "when unmarshalling" + the envelope error, or the status or summary decoder's error. |
| `Backup.ProbeOutcome` | main.go:85-89 | The probe transformer never panics. A successful probe yields nil for empty output and a pointer to "unused" otherwise. |
| `Backup.BackupArgs` | main.go:178-182 | The backup arguments start with `backup <location>`. `--exclude <ignore>` follows if and only if `ignore` is non-empty, giving 4 arguments instead of 2. |
| `Backup.DoBackup` | main.go:139-190 | The probe `restic cat config` always runs first. The backup runs with `BackupArgs` only after a probe that returned without error. A probe error ends the unit with nothing reported, and a fatal probe exits. After a clean probe the backup's error is discarded and the report is (true, the backup's result). A recovered panic reports (false, nil). A report with success = true comes only from a normal return. |
| `Tee.TeeLogger.constructor` | log.go:14-18 | The tee keeps the handler array it is given, in the given order. |
| `Tee.TeeLogger.Enabled` | log.go:20-28 | True exactly when some handler is enabled at the level. False with no handlers. |
| `Tee.TeeLogger.Handle` | log.go:30-38 | Handlers receive the record in index order, each once, starting from the first. The result is nil exactly when every handler returned nil, and then all received it. Otherwise the result is the error of the last handler called, every handler before it returned nil, and no later handler received the record. |
| `Tee.TeeLogger.WithAttrs` | log.go:40-49 | A fresh tee over a fresh array of the same length. Its k-th handler is handler k with the attributes attached. The receiver's handlers are unchanged. |
| `Tee.TeeLogger.WithGroup` | log.go:51-60 | A fresh tee over a fresh array of the same length. Its k-th handler is handler k opened on the group. The receiver's handlers are unchanged. |

## Left out

- Logging inside the modelled functions (`slog.Info`, `slog.Debug`, `slog.Warn`), including the float and duration formatting and `humanize.Bytes` in main.go:41-74. It has no effect on any returned value.
- `sendResult` (main.go:91-137): the webhook client, the embed builder and its `os.Exit`. It is reduced to the `(success, summary)` pair it is called with. The captured log text it also receives is not modelled.
- `main` (main.go:192-209), with its loop over locations, and in `doBackup` the logger set-up (main.go:150-161), the environment reads (main.go:163-167, 175) and the `os.Exit(1)` after a recovered panic. `AUTORESTIC_IGNORE` is a parameter of `DoBackup`. The recovered-panic path is the `PanicReported` outcome, which records that the process exits next.
- Process spawning, pipes, `bufio.Scanner` and `command.Wait`. These are operating-system I/O. A run is a `Process` value from a `Spawner`, which assumes the same command line always yields the same report. Scanner failures, such as an over-long line, are only the `scanError` field. The order of draining stdout before stderr, and the pipe deadlock it allows, is not modelled.
- JSON encoding and decoding (deser.go): the `Marshal` methods, `UnmarshalStatsMessage` (not called by the modelled code) and the round-trip behaviour, all of which belong to `encoding/json`. Decoders are function values.
- `logAnd` (main.go:15-20), which the modelled code never calls.
- The `context.Context` argument of the handler methods, which the tee passes through unchanged. A tee nested inside another tee is not modelled: handlers are abstract values.
