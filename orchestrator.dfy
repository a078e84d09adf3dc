/**
 * The migration itself: the step helpers and the `Action` of the `migrate`
 * command, issuing one remote operation after another and stopping at the
 * first one that fails. Remote hosts are not contacted; every operation is
 * appended to a trace and an oracle decides whether it reports an error.
 */
module Orchestrator {

  import opened Paths
  import opened Commands
  import opened Migration

  /** Issues one remote operation: it joins the trace, and `fails` decides
      whether the host reports an error for it. */
  method Issue(trace: seq<Event>, e: Event, fails: nat -> bool) returns (next: seq<Event>, ok: bool)
    requires !e.ClockStart?
    ensures next == trace + [e] && next[..|trace|] == trace
    ensures ok <==> !Fails(next, |trace|, fails)
    ensures Clean(trace, fails) && ok ==> Clean(next, fails)
  {
    next := trace + [e];
    ok := !fails(|trace|);
    assert next[..|trace|] == trace;
    if Clean(trace, fails) && ok {
      forall k | 0 <= k < |next| ensures !Fails(next, k, fails) {
        if k < |trace| {
          assert next[k] == trace[k] && !Fails(trace, k, fails);
        }
      }
    }
  }

  /** `migrateStart = time.Now()`: the downtime clock starts. Only its
      position in the trace is modelled, and it cannot fail. */
  method StartClock(trace: seq<Event>, fails: nat -> bool) returns (next: seq<Event>)
    ensures next == trace + [ClockStart] && next[..|trace|] == trace
    ensures Clean(trace, fails) ==> Clean(next, fails)
  {
    next := trace + [ClockStart];
    assert next[..|trace|] == trace;
    if Clean(trace, fails) {
      forall k | 0 <= k < |next| ensures !Fails(next, k, fails) {
        if k < |trace| {
          assert next[k] == trace[k] && !Fails(trace, k, fails);
        }
      }
    }
  }

  /** prepareDir: `mkdir -p <path>` on the given host. */
  method PrepareDir(trace: seq<Event>, host: Host, path: string, fails: nat -> bool)
    returns (next: seq<Event>, ok: bool)
    ensures next == trace + [Run(host, Argv(Mkdir(path)))] && next[..|trace|] == trace
    ensures ok <==> !Fails(next, |trace|, fails)
    ensures Clean(trace, fails) && ok ==> Clean(next, fails)
  {
    next, ok := Issue(trace, Run(host, ["mkdir", "-p", path]), fails);
  }

  /** prepareTar: pack the contents of `workDir` into `tarFile`. */
  method PrepareTar(trace: seq<Event>, host: Host, tarFile: string, workDir: string, fails: nat -> bool)
    returns (next: seq<Event>, ok: bool)
    ensures next == trace + [Run(host, Argv(Archive(tarFile, workDir)))] && next[..|trace|] == trace
    ensures ok <==> !Fails(next, |trace|, fails)
    ensures Clean(trace, fails) && ok ==> Clean(next, fails)
  {
    next, ok := Issue(trace, Run(host, ["sudo", "tar", "-czf", tarFile, "-C", workDir + "/", "."]), fails);
  }

  /** unpackTar: extract `tarFile` into `workDir`. */
  method UnpackTar(trace: seq<Event>, host: Host, tarFile: string, workDir: string, fails: nat -> bool)
    returns (next: seq<Event>, ok: bool)
    ensures next == trace + [Run(host, Argv(Extract(tarFile, workDir)))] && next[..|trace|] == trace
    ensures ok <==> !Fails(next, |trace|, fails)
    ensures Clean(trace, fails) && ok ==> Clean(next, fails)
  {
    next, ok := Issue(trace, Run(host, ["sudo", "tar", "-C", workDir, "-xvzf", tarFile]), fails);
  }

  /** checkpoint: the `runc` arguments are built first and `--pre-dump` is
      appended to them when asked for; the command runs under `sudo`. */
  method RunCheckpoint(trace: seq<Event>, host: Host, id: string, imagesPath: string, predump: bool,
                       fails: nat -> bool)
    returns (next: seq<Event>, ok: bool)
    ensures next == trace + [Run(host, Argv(Checkpoint(id, imagesPath, if predump then PreDump else Full)))]
    ensures next[..|trace|] == trace
    ensures ok <==> !Fails(next, |trace|, fails)
    ensures Clean(trace, fails) && ok ==> Clean(next, fails)
  {
    var args := ["runc", "--id", id, "checkpoint", "--image-path", imagesPath];
    if predump {
      args := args + ["--pre-dump"];
    }
    assert ["sudo"] + args == Argv(Checkpoint(id, imagesPath, if predump then PreDump else Full));
    next, ok := Issue(trace, Run(host, ["sudo"] + args), fails);
  }

  /** The `Action` of the `migrate` command, from the container id on. The
      trace it returns is the protocol of its plan up to and including the
      first operation that fails; the restore is reported started only when
      every operation succeeded. */
  method Migrate(srcPath: string, dstPath: string, preDump: bool, fails: nat -> bool)
    returns (trace: seq<Event>, outcome: Outcome)
    ensures FailFast(trace, outcome, Protocol(PlanFor(srcPath, dstPath, preDump)), fails)
  {
    var containerId := GetContainerId(srcPath);
    if preDump {
      trace, outcome := MigrateWithPreDump(srcPath, dstPath, containerId, fails);
    } else {
      ghost var plan := Plan(srcPath, dstPath, containerId, false);
      SinglePassEvents(plan);
      trace, outcome := MigrateSinglePass(srcPath, dstPath, containerId, fails, Protocol(plan));
    }
  }

  /** The pre-dump branch of `Action`: the pass that keeps the container
      running, then, if all of it succeeded, the final pass. */
  method MigrateWithPreDump(srcPath: string, dstPath: string, containerId: string, fails: nat -> bool)
    returns (trace: seq<Event>, outcome: Outcome)
    ensures FailFast(trace, outcome, Protocol(Plan(srcPath, dstPath, containerId, true)), fails)
  {
    ghost var plan := Plan(srcPath, dstPath, containerId, true);
    PreDumpFirstEvents(plan);
    var ok;
    trace, ok := PreDumpPass(srcPath, dstPath, containerId, fails, Protocol(plan));
    if !ok {
      return trace, Fatal(|trace| - 1);
    }
    PreDumpFinalEvents(plan);
    trace, outcome := FinalPass(trace, srcPath, dstPath, containerId, fails, Protocol(plan));
  }

  /** Pre-dump mode, the first pass: generation 0 is checkpointed with
      `--pre-dump` into `images/0` and shipped to the destination. Either all
      six operations succeed, or the trace stops at the first that failed. */
  method PreDumpPass(srcPath: string, dstPath: string, containerId: string, fails: nat -> bool,
                     ghost p: seq<Event>)
    returns (trace: seq<Event>, ok: bool)
    requires |p| == 13
    requires p[0] == Run(Source, Argv(Mkdir(srcPath + "/images/0")))
    requires p[1] == Run(Source, Argv(Checkpoint(containerId, srcPath + "/images/0", PreDump)))
    requires p[2] == Run(Source, Argv(Archive(srcPath + "/" + "predump.tar.gz", srcPath + "/images/0")))
    requires p[3] == Run(Destination, Argv(Mkdir(dstPath + "/images/0")))
    requires p[4] == Scp(srcPath + "/" + "predump.tar.gz", dstPath + "/images/0")
    requires p[5] == Run(Destination, Argv(Extract(dstPath + "/images/0" + "/" + "predump.tar.gz", dstPath + "/images/0")))
    ensures ok ==> trace == p[..6] && Clean(trace, fails)
    ensures !ok ==> 0 < |trace| <= 6 && FailFast(trace, Fatal(|trace| - 1), p, fails)
  {
    trace := [];
    var predumpPath := srcPath + "/images/0";
    ghost var before := trace;
    PrefixStep(p, trace, p[0]);
    trace, ok := PrepareDir(trace, Source, predumpPath, fails);
    if !ok {
      Halt(p, before, trace, fails);
      return;
    }

    before := trace;
    PrefixStep(p, trace, p[1]);
    trace, ok := RunCheckpoint(trace, Source, containerId, predumpPath, true, fails);
    if !ok {
      Halt(p, before, trace, fails);
      return;
    }

    var srcTarFile := srcPath + "/" + "predump.tar.gz";
    before := trace;
    PrefixStep(p, trace, p[2]);
    trace, ok := PrepareTar(trace, Source, srcTarFile, predumpPath, fails);
    if !ok {
      Halt(p, before, trace, fails);
      return;
    }

    before := trace;
    PrefixStep(p, trace, p[3]);
    trace, ok := PrepareDir(trace, Destination, dstPath + "/images/0", fails);
    if !ok {
      Halt(p, before, trace, fails);
      return;
    }

    before := trace;
    PrefixStep(p, trace, p[4]);
    trace, ok := Issue(trace, Scp(srcTarFile, dstPath + "/images/0"), fails);
    if !ok {
      Halt(p, before, trace, fails);
      return;
    }

    var dstTarFile := dstPath + "/images/0" + "/" + "predump.tar.gz";
    before := trace;
    PrefixStep(p, trace, p[5]);
    trace, ok := UnpackTar(trace, Destination, dstTarFile, dstPath + "/images/0", fails);
    if !ok {
      Halt(p, before, trace, fails);
    }
  }

  /** Pre-dump mode, the final pass: downtime starts, generation 1 is
      checkpointed into `images/1` against `images/0`, shipped, and restored
      from the destination's `images/1`. */
  method FinalPass(start: seq<Event>, srcPath: string, dstPath: string, containerId: string,
                   fails: nat -> bool, ghost p: seq<Event>)
    returns (trace: seq<Event>, outcome: Outcome)
    requires |p| == 13 && start == p[..6] && Clean(start, fails)
    requires p[6] == ClockStart
    requires p[7] == Run(Source, Argv(Checkpoint(containerId, srcPath + "/images/1", Incremental(srcPath + "/images/0"))))
    requires p[8] == Run(Source, Argv(Archive(srcPath + "/" + "dump.tar.gz", srcPath + "/images/1")))
    requires p[9] == Run(Destination, Argv(Mkdir(dstPath + "/images/1")))
    requires p[10] == Scp(srcPath + "/" + "dump.tar.gz", dstPath + "/images/1")
    requires p[11] == Run(Destination, Argv(Extract(dstPath + "/images/1" + "/" + "dump.tar.gz", dstPath + "/images/1")))
    requires p[12] == StartRestore(Argv(Restore(containerId, dstPath + "/images/1",
                                                dstPath + "/config.json", dstPath + "/runtime.json")))
    ensures FailFast(trace, outcome, p, fails)
  {
    var ok: bool;
    trace := start;
    var predumpPath := srcPath + "/images/0";
    ghost var before := trace;
    PrefixStep(p, trace, p[6]);
    trace := StartClock(trace, fails);

    var imagesPath := srcPath + "/images/1";
    before := trace;
    PrefixStep(p, trace, p[7]);
    var finalCheckpoint := ["sudo", "runc", "--id", containerId, "checkpoint",
                            "--image-path", imagesPath, "--prev-images-dir", predumpPath];
    assert finalCheckpoint == Argv(Checkpoint(containerId, imagesPath, Incremental(predumpPath)));
    trace, ok := Issue(trace, Run(Source, finalCheckpoint), fails);
    if !ok {
      Halt(p, before, trace, fails);
      return trace, Fatal(|trace| - 1);
    }

    var srcTarFile := srcPath + "/" + "dump.tar.gz";
    before := trace;
    PrefixStep(p, trace, p[8]);
    trace, ok := PrepareTar(trace, Source, srcTarFile, imagesPath, fails);
    if !ok {
      Halt(p, before, trace, fails);
      return trace, Fatal(|trace| - 1);
    }

    before := trace;
    PrefixStep(p, trace, p[9]);
    trace, ok := PrepareDir(trace, Destination, dstPath + "/images/1", fails);
    if !ok {
      Halt(p, before, trace, fails);
      return trace, Fatal(|trace| - 1);
    }

    before := trace;
    PrefixStep(p, trace, p[10]);
    trace, ok := Issue(trace, Scp(srcTarFile, dstPath + "/images/1"), fails);
    if !ok {
      Halt(p, before, trace, fails);
      return trace, Fatal(|trace| - 1);
    }

    var dstTarFile := dstPath + "/images/1" + "/" + "dump.tar.gz";
    before := trace;
    PrefixStep(p, trace, p[11]);
    trace, ok := UnpackTar(trace, Destination, dstTarFile, dstPath + "/images/1", fails);
    if !ok {
      Halt(p, before, trace, fails);
      return trace, Fatal(|trace| - 1);
    }

    var configFilePath := dstPath + "/config.json";
    var runtimeFilePath := dstPath + "/runtime.json";
    var dstImagesPath := dstPath + "/images/1";
    before := trace;
    PrefixStep(p, trace, p[|p| - 1]);
    trace, ok := Issue(trace, StartRestore(["sudo", "runc", "--id", containerId, "restore",
                                            "--image-path", dstImagesPath, "--config-file", configFilePath,
                                            "--runtime-file", runtimeFilePath]), fails);
    assert trace == p[..|p|];
    if !ok {
      Halt(p, before, trace, fails);
      return trace, Fatal(|trace| - 1);
    }
    outcome := RestoreStarted;
  }

  /** The single-pass branch of `Action`. */
  method MigrateSinglePass(srcPath: string, dstPath: string, containerId: string, fails: nat -> bool,
                           ghost p: seq<Event>)
    returns (trace: seq<Event>, outcome: Outcome)
    requires |p| == 8
    requires p[0] == Run(Source, Argv(Mkdir(srcPath + "/images")))
    requires p[1] == ClockStart
    requires p[2] == Run(Source, Argv(Checkpoint(containerId, srcPath + "/images", Full)))
    requires p[3] == Run(Source, Argv(Archive(srcPath + "/" + "dump.tar.gz", srcPath + "/images")))
    requires p[4] == Run(Destination, Argv(Mkdir(dstPath + "/images")))
    requires p[5] == Scp(srcPath + "/" + "dump.tar.gz", dstPath + "/images")
    requires p[6] == Run(Destination, Argv(Extract(dstPath + "/images" + "/" + "dump.tar.gz", dstPath + "/images")))
    requires p[7] == StartRestore(Argv(Restore(containerId, dstPath + "/images",
                                               dstPath + "/config.json", dstPath + "/runtime.json")))
    ensures FailFast(trace, outcome, p, fails)
  {
    var ok: bool;
    trace := [];
    var imagesPath := srcPath + "/images";
    ghost var before := trace;
    PrefixStep(p, trace, p[0]);
    trace, ok := PrepareDir(trace, Source, imagesPath, fails);
    if !ok {
      Halt(p, before, trace, fails);
      return trace, Fatal(|trace| - 1);
    }

    // Downtime starts before the only checkpoint.
    before := trace;
    PrefixStep(p, trace, p[1]);
    trace := StartClock(trace, fails);

    before := trace;
    PrefixStep(p, trace, p[2]);
    trace, ok := RunCheckpoint(trace, Source, containerId, imagesPath, false, fails);
    if !ok {
      Halt(p, before, trace, fails);
      return trace, Fatal(|trace| - 1);
    }

    var srcTarFile := srcPath + "/" + "dump.tar.gz";
    before := trace;
    PrefixStep(p, trace, p[3]);
    trace, ok := PrepareTar(trace, Source, srcTarFile, imagesPath, fails);
    if !ok {
      Halt(p, before, trace, fails);
      return trace, Fatal(|trace| - 1);
    }

    before := trace;
    PrefixStep(p, trace, p[4]);
    trace, ok := PrepareDir(trace, Destination, dstPath + "/images", fails);
    if !ok {
      Halt(p, before, trace, fails);
      return trace, Fatal(|trace| - 1);
    }

    before := trace;
    PrefixStep(p, trace, p[5]);
    trace, ok := Issue(trace, Scp(srcTarFile, dstPath + "/images"), fails);
    if !ok {
      Halt(p, before, trace, fails);
      return trace, Fatal(|trace| - 1);
    }

    var dstTarFile := dstPath + "/images" + "/" + "dump.tar.gz";
    before := trace;
    PrefixStep(p, trace, p[6]);
    trace, ok := UnpackTar(trace, Destination, dstTarFile, dstPath + "/images", fails);
    if !ok {
      Halt(p, before, trace, fails);
      return trace, Fatal(|trace| - 1);
    }

    var configFilePath := dstPath + "/config.json";
    var runtimeFilePath := dstPath + "/runtime.json";
    var dstImagesPath := dstPath + "/images";
    before := trace;
    PrefixStep(p, trace, p[|p| - 1]);
    trace, ok := Issue(trace, StartRestore(["sudo", "runc", "--id", containerId, "restore",
                                            "--image-path", dstImagesPath, "--config-file", configFilePath,
                                            "--runtime-file", runtimeFilePath]), fails);
    assert trace == p[..|p|];
    if !ok {
      Halt(p, before, trace, fails);
      return trace, Fatal(|trace| - 1);
    }
    outcome := RestoreStarted;
  }
}
