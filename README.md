# Container migration: the `migrate` command as a verified model

This project models the orchestration core of the `migrate` command of a
container migration tool (`migrate/migrate.go`). The command moves a running
container from a source host to a destination host with `runc`
checkpoint/restore. Every step is a command run on one of the two hosts, or a
file copy between them. The first step that reports an error ends the
migration. It runs in one of two modes:

- **single pass.** The tool creates `<src>/images` and starts the downtime
  clock. It then checkpoints the container into that directory, archives it
  as `<src>/dump.tar.gz`, creates `<dst>/images`, copies the archive there,
  unpacks it, and launches the restore.
- **pre-dump.** First comes a pass that leaves the container running. It
  checkpoints with `--pre-dump` into `images/0` and ships that image as
  `predump.tar.gz`. Then the clock starts. A final checkpoint goes into
  `images/1`, with `--prev-images-dir <src>/images/0` as its delta base. That
  image is shipped as `dump.tar.gz`, and the restore runs from
  `<dst>/images/1`.

The model has four modules:

- `Paths` (`paths.dfy`) covers the `/`-separated part of Go's
  `filepath.Split` and `getContainerId`. The id is the last path segment of
  the source location.
- `Commands` (`commands.dfy`) holds every remote command line as a `Command`
  value. `Argv` spells a command as the argument vector handed to the remote
  host, and `Decode` reads such a vector back. The module also has
  `isRunning`, kept with the source's polarity.
- `Migration` (`migration.dfy`) describes a migration as a trace of
  `Event`s:
  - `Run(host, argv)`: a blocking remote command;
  - `Scp(file, dir)`: a file copy to the destination;
  - `StartRestore(argv)`: the non-blocking restore launch;
  - `ClockStart`: the instant `migrateStart` is taken.

  `Protocol(plan)` is the full trace of a migration in which nothing fails.
  `FailFast` states when a trace and outcome are what a migration yields:
  - the trace is a prefix of the protocol;
  - every operation before its last one succeeded;
  - the outcome is `RestoreStarted` only if the whole protocol ran without
    error;
  - otherwise the outcome is `Fatal(k)`, where `k` is the position of the
    operation that failed.

  The ordering lemmas hold for both modes.
- `Orchestrator` (`orchestrator.dfy`) is the imperative part. It has the
  source's step helpers (`prepareDir`, `checkpoint`, `prepareTar`,
  `unpackTar`) and the `Action` closure from the container id to the
  restore launch. Each of these is a method that appends the operation it
  issues to the trace. A remote host's answer comes from an oracle
  `fails: nat -> bool`, which says whether the operation at a given trace
  position reports an error. `log.Fatal` becomes "return with outcome
  `Fatal`". `Migrate` is proved to return exactly the trace and outcome
  that `FailFast` allows for its plan. `FailFastUnique` shows there is only
  one such pair. The lemmas `SinglePassEvents`, `PreDumpFirstEvents`,
  `PreDumpFinalEvents` and `PreDumpParts` unfold `Protocol` into the
  per-position table the branch methods are checked against; they state no
  property of their own.

## Model

| member | source | states |
|---|---|---|
| Paths.Split | migrate/migrate.go:221 | The directory and file parts concatenate back to the path. The file part holds no `/`. The directory part is empty or ends in `/`. |
| Paths.SplitUnique | migrate/migrate.go:221 | Those three properties determine the split: any directory/file pair with them is the result of `Split`. |
| Paths.SplitJoin | migrate/migrate.go:221 | Splitting `dir + "/" + name` for a separator-free `name` gives back `(dir + "/", name)`. |
| Paths.GetContainerId | migrate/migrate.go:220-223 | The id contains no `/`. It is a suffix of the path. It is either the whole path or preceded by a `/`. |
| Paths.ContainerIdIsLastSegment | migrate/migrate.go:220-223 | Any separator-free suffix that follows a `/` (or is the whole path) is the id. So the id is exactly the last path segment. |
| Commands.Argv | migrate/migrate.go:186-218 | Every command line has at least two words. It starts with `sudo`, except for `mkdir` and `stat`. |
| Commands.DecodeArgv | migrate/migrate.go:186-218 | Reading back the command line of any command gives that command: `Decode(Argv(c)) == Some(c)`. |
| Commands.DecodeSound | migrate/migrate.go:186-218 | Every vector that `Decode` accepts is exactly the command line of the command it decodes to. |
| Commands.ArgvInjective | migrate/migrate.go:186-218 | Two different commands never produce the same command line. |
| Commands.DecodeMode | migrate/migrate.go:72-206 | Reads back the trailing checkpoint flags: none, the `--pre-dump` of lines 204-206, or the `--prev-images-dir <dir>` pair of line 72. Spelling the decoded mode again gives the same flags. |
| Commands.CheckpointArgvShape | migrate/migrate.go:201-211 | A checkpoint line is `sudo runc --id <id> checkpoint --image-path <path>`. It has 8 words iff a pre-dump is asked for, and then `--pre-dump` is the last word. |
| Commands.IsRunning | migrate/migrate.go:177-184 | The container counts as running iff `stat /var/run/opencontainer/containers/<id>` reports an error. This is the polarity as written. |
| Commands.StatePathNamesContainer | migrate/migrate.go:178 | The last segment of the state entry that `isRunning` inspects is the container id itself. |
| Commands.ModeFlags | migrate/migrate.go:72-206 | No contract: the trailing checkpoint flags, `--pre-dump` (lines 204-206) or `--prev-images-dir <dir>` (line 72). DecodeMode reads them back and CheckpointArgvShape states the `--pre-dump` position. |
| Commands.StatePath | migrate/migrate.go:178 | No contract: the state entry `stat` inspects. StatePathNamesContainer states that its last segment is the container id. |
| Migration.PlanFor | migrate/migrate.go:40 | The plan keeps both paths and the mode. Its container id has no `/`, and it ends the source path right after that path's directory part. |
| Migration.Protocol | migrate/migrate.go:46-127 | No contract: the trace when nothing fails, in both modes. Its order is stated by SinglePassOrdering, PreDumpGenerationZero, PreDumpFinalPass and RestoreComesLast. |
| Migration.Pass | migrate/migrate.go:51-118 | No contract: one generation's checkpoint, archive, destination mkdir, copy and unpack (lines 51-65, 70-88 and 104-118). Its properties are stated by PassDelivers and PassClassified. |
| Migration.RestoreEvent | migrate/migrate.go:91-124 | No contract: the restore launch of lines 91-94 and 121-124. What it names is stated by RestoreComesLast. |
| Migration.PassDelivers | migrate/migrate.go:51-65 | Within one checkpoint pass, the archive is made from the checkpoint's image directory and the destination directory is created. The archive is then copied there, and the unpack extracts the very file the copy delivered into that directory. |
| Migration.PassClassified | migrate/migrate.go:51-65 | Within a pass, only the first event is a checkpoint, of the pass's own mode. No event in a pass is the clock start or a restore, and every `runc` call names the plan's container. |
| Migration.SinglePassOrdering | migrate/migrate.go:99-128 | Single-pass mode has 8 events. `mkdir <src>/images` comes first and the clock starts at position 1. The one checkpoint, a full one into `<src>/images`, is at position 2. There is no pre-dump checkpoint. The image reaches `<dst>/images` by position 6, and the restore is last and occurs once. |
| Migration.SinglePassPosition | migrate/migrate.go:99-128 | For each position of the single-pass protocol: whether its event is the clock start, the checkpoint or the restore, and that every `runc` call there names the plan's container. |
| Migration.PreDumpPosition | migrate/migrate.go:46-98 | For each position of the pre-dump protocol: whether it is the pre-dump checkpoint (1), the clock start (6), the final checkpoint (7) or the restore (12), and that every `runc` call names the plan's container. |
| Migration.PreDumpGenerationZero | migrate/migrate.go:47-65 | In pre-dump mode, `mkdir <src>/images/0` comes first. The only pre-dump checkpoint is at position 1 and writes `<src>/images/0`. Its image reaches `<dst>/images/0` by position 5. The clock start occurs only at position 6, after all of that. |
| Migration.PreDumpFinalPositions | migrate/migrate.go:67-97 | In pre-dump mode, the clock start, the final checkpoint and the restore occur exactly once each, at positions 6, 7 and 12. |
| Migration.PreDumpFinalPass | migrate/migrate.go:67-97 | The final checkpoint comes right after the clock start. It writes `<src>/images/1` with `<src>/images/0` as delta base, and its image reaches `<dst>/images/1` just before the restore, which is last. |
| Migration.PreDumpRestoreLast | migrate/migrate.go:87-97 | In pre-dump mode the restore is last and occurs once, right after the unpack into `<dst>/images/1`. |
| Migration.SinglePassRestoreLast | migrate/migrate.go:117-127 | In single-pass mode the restore is last and occurs once, right after the unpack into `<dst>/images`. |
| Migration.RestoreComesLast | migrate/migrate.go:87-127 | In both modes the restore is the last event and occurs once, and the event before it is an unpack. The restore uses the container id, the directory that unpack wrote into (`images/1` or `images`), and `<dst>/config.json` and `<dst>/runtime.json`. |
| Migration.OneContainerId | migrate/migrate.go:40-127 | Every checkpoint and restore of a migration names the one container id derived from the source path. |
| Migration.FailFastUnique | migrate/migrate.go:46-127 | For a given protocol and set of host answers, at most one trace and outcome satisfy the fail-fast rule. |
| Migration.NoRestoreAfterFailure | migrate/migrate.go:87-97 | A reported restore start means the whole protocol ran. A restore appears in the trace iff the trace is the whole protocol. A failure before the last step leaves no restore in the trace. |
| Migration.ClockOnlyAfterPreparation | migrate/migrate.go:46-104 | The trace holds no clock start iff it ends before the clock's position (its length is at most that position). Such a trace also holds no container-stopping checkpoint, and it ends in `Fatal`. |
| Migration.PreDumpTransferFailure | migrate/migrate.go:58-62 | In pre-dump mode, when the first four operations succeed and the generation-0 copy fails, the migration ends as `Fatal(4)` at that copy. The trace then has no clock start and no restore. |
| Orchestrator.Issue | migrate/migrate.go:58-124 | One remote operation joins the trace: the copies at lines 59, 82 and 112, the final checkpoint at 72, the restore launches at 94 and 124, and every helper's `Run`. It succeeds iff the host reports no error for its position, and success keeps the trace error-free. |
| Orchestrator.StartClock | migrate/migrate.go:68-103 | The clock start (`migrateStart` at line 68, and at line 103 in single-pass mode) joins the trace. It cannot fail and keeps the trace error-free. |
| Orchestrator.PrepareDir | migrate/migrate.go:213-218 | Issues `mkdir -p <path>` on the given host. |
| Orchestrator.PrepareTar | migrate/migrate.go:194-199 | Issues `sudo tar -czf <tar> -C <dir>/ .` on the given host. |
| Orchestrator.UnpackTar | migrate/migrate.go:186-192 | Issues `sudo tar -C <dir> -xvzf <tar>` on the given host. |
| Orchestrator.RunCheckpoint | migrate/migrate.go:201-211 | Builds the `runc` arguments, appends `--pre-dump` when asked for, and issues the result under `sudo`. The line it issues is the `Checkpoint` command of mode `PreDump` or `Full`. |
| Orchestrator.Migrate | migrate/migrate.go:40-128 | The trace and outcome satisfy the fail-fast rule for the plan's protocol: the trace stops at the first failing operation, and the restore is reported started only if every operation succeeded. |
| Orchestrator.MigrateWithPreDump | migrate/migrate.go:46-98 | The fail-fast rule holds for the pre-dump protocol. |
| Orchestrator.PreDumpPass | migrate/migrate.go:47-65 | Either all six operations of the generation-0 pass succeed and the trace is the protocol's first six events, or the trace stops, fatally, at the first of them that failed, so it holds at most those six operations. |
| Orchestrator.FinalPass | migrate/migrate.go:67-97 | Starting from the completed generation-0 pass, the fail-fast rule holds for the whole pre-dump protocol. |
| Orchestrator.MigrateSinglePass | migrate/migrate.go:99-128 | The fail-fast rule holds for the single-pass protocol. |

## Left out

- The completion monitor (`migrate/migrate.go:131-172`) is not modelled. It covers the restore wait, the liveness polling every 200 ms, the `WaitGroup` and the downtime report, which need goroutines and real time. Note a hazard there: `wg.Add(1)` is matched by up to two `wg.Done()` calls, one from each task, so a second task that finishes late drives the counter negative.
- Time arithmetic: `migrateStart` is only a `ClockStart` marker in the trace. `time.Since` and the millisecond report are left out.
- Command-line flags, `validate.ParseURL` and `validate.Validate` are not part of this model. `Migrate` takes the path part of each URL, and the pre-dump flag, as plain parameters.
- The remote transport (`cmd.Cmd`: `Run`, `Start`, `Scp`) becomes the trace plus the `fails` oracle. Command output and exit codes are not modelled, only whether an error came back.
- Log messages and the text passed to `log.Fatal` are left out. A fatal error is modelled as the trace stopping, with outcome `Fatal`.
- `Split` models `filepath.Split` for `/`-separated paths only. Windows volume names are left out.
- `Scp` is modelled as an event only. That the copied archive lands in the destination directory under its own base name is an assumption about the copy, stated in `DeliveredAt`. It is not derived from the transport.
- Timing of the destination `mkdir`: each destination image directory is created after the source archive is made (`migrate/migrate.go:56`, `:79`, `:109`). For the final image (`:79`, `:109`) that `mkdir` falls after `ClockStart`, inside the downtime window: position 9 in pre-dump mode and position 4 in single-pass mode. The generation-0 `mkdir` (`:56`) is at position 3, before the clock. The model keeps that order.
- Commands.IsRunning: the polarity is modelled as written, so a failing `stat` counts as running. Whether that is the intended reading of the runtime's state entry cannot be settled from this code, so no finding is claimed.
- The rollback after a failed restore is only a comment in the source (`migrate/migrate.go:171`). There is nothing to model.
