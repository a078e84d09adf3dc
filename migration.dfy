/**
 * What a migration does, as the sequence of events it issues against the two
 * hosts: the intended full sequence for each mode, the fail-fast rule that
 * cuts it short, and the ordering rules both modes obey.
 */
module Migration {

  import opened Paths
  import opened Commands

  datatype Host = Source | Destination

  /** One observable step of a migration. `Run` is a blocking remote command
      (program first), `Scp` copies a file on the source into a directory on
      the destination, `StartRestore` launches the restore without waiting
      for it, and `ClockStart` marks the instant downtime starts counting. */
  datatype Event =
    | Run(host: Host, argv: seq<string>)
    | Scp(srcPath: string, dstPath: string)
    | StartRestore(argv: seq<string>)
    | ClockStart

  /** The migration's parameters: the path part of each host's URL, the
      container id and whether a pre-dump pass is made first. */
  datatype Plan = Plan(srcPath: string, dstPath: string, containerId: string, preDump: bool)

  /** The container id is the last segment of the source path, fixed once and
      used on both hosts. */
  function PlanFor(srcPath: string, dstPath: string, preDump: bool): (plan: Plan)
    ensures plan.srcPath == srcPath && plan.dstPath == dstPath && plan.preDump == preDump
    ensures Separator !in plan.containerId
    ensures srcPath == Split(srcPath).0 + plan.containerId
  {
    Plan(srcPath, dstPath, GetContainerId(srcPath), preDump)
  }

  /** One image generation: the image directory on each host and the file
      name of the archive that carries it across. */
  datatype Generation = Generation(srcImages: string, dstImages: string, tarName: string)

  function SingleGeneration(plan: Plan): Generation
  {
    Generation(plan.srcPath + "/images", plan.dstPath + "/images", "dump.tar.gz")
  }

  function PreDumpGeneration(plan: Plan): Generation
  {
    Generation(plan.srcPath + "/images/0", plan.dstPath + "/images/0", "predump.tar.gz")
  }

  function FinalGeneration(plan: Plan): Generation
  {
    Generation(plan.srcPath + "/images/1", plan.dstPath + "/images/1", "dump.tar.gz")
  }

  /** One checkpoint pass: checkpoint into the source image directory,
      archive it next to the source path, create the destination image
      directory, copy the archive into it and unpack it there. */
  function Pass(plan: Plan, g: Generation, mode: CheckpointMode): seq<Event>
  {
    var srcTar := plan.srcPath + "/" + g.tarName;
    [ Run(Source, Argv(Checkpoint(plan.containerId, g.srcImages, mode))),
      Run(Source, Argv(Archive(srcTar, g.srcImages))),
      Run(Destination, Argv(Mkdir(g.dstImages))),
      Scp(srcTar, g.dstImages),
      Run(Destination, Argv(Extract(g.dstImages + "/" + g.tarName, g.dstImages))) ]
  }

  function RestoreEvent(plan: Plan, dstImages: string): Event
  {
    StartRestore(Argv(Restore(plan.containerId, dstImages,
                              plan.dstPath + "/config.json", plan.dstPath + "/runtime.json")))
  }

  /** The events of a migration in which every remote step succeeds. */
  function Protocol(plan: Plan): seq<Event>
  {
    if plan.preDump then
      var g0, g1 := PreDumpGeneration(plan), FinalGeneration(plan);
      [Run(Source, Argv(Mkdir(g0.srcImages)))] + Pass(plan, g0, PreDump)
        + [ClockStart] + Pass(plan, g1, Incremental(g0.srcImages))
        + [RestoreEvent(plan, g1.dstImages)]
    else
      var g := SingleGeneration(plan);
      [Run(Source, Argv(Mkdir(g.srcImages))), ClockStart] + Pass(plan, g, Full)
        + [RestoreEvent(plan, g.dstImages)]
  }

  /** Position of the downtime marker in the full protocol. */
  function ClockIndex(plan: Plan): nat
  {
    if plan.preDump then 6 else 1
  }

  // ---------------------------------------------------------------------
  // Reading events back

  function CommandOf(e: Event): Option<Command>
  {
    match e
    case Run(_, argv) => Decode(argv)
    case StartRestore(argv) => Decode(argv)
    case _ => None
  }

  predicate IsClockStart(e: Event)
  {
    e.ClockStart?
  }

  /** A checkpoint on the source that leaves the container running. */
  predicate IsPreDumpCheckpoint(e: Event)
  {
    && e.Run? && e.host == Source
    && CommandOf(e).Some? && CommandOf(e).value.Checkpoint?
    && CommandOf(e).value.mode.PreDump?
  }

  /** A checkpoint on the source that stops the container. */
  predicate IsFinalCheckpoint(e: Event)
  {
    && e.Run? && e.host == Source
    && CommandOf(e).Some? && CommandOf(e).value.Checkpoint?
    && !CommandOf(e).value.mode.PreDump?
  }

  predicate IsRestoreLaunch(e: Event)
  {
    e.StartRestore?
  }

  predicate IsUnpack(e: Event)
  {
    e.Run? && e.host == Destination && CommandOf(e).Some? && CommandOf(e).value.Extract?
  }

  /** `t[k]` is the one and only event of `t` satisfying `f`. */
  ghost predicate OnlyAt(t: seq<Event>, k: int, f: Event -> bool)
  {
    0 <= k < |t| && f(t[k]) && forall i :: 0 <= i < |t| && f(t[i]) ==> i == k
  }

  ghost predicate NoneIn(t: seq<Event>, f: Event -> bool)
  {
    forall i :: 0 <= i < |t| ==> !f(t[i])
  }

  /** The image the source checkpoint at `k - 4` wrote into `srcImages` has
      reached `dstImages`: it was archived, the destination directory was
      created, the archive was copied into it (landing under its own base
      name) and the unpack at `k` extracted exactly that file there. */
  ghost predicate DeliveredAt(t: seq<Event>, k: int, srcImages: string, dstImages: string)
  {
    && 4 <= k < |t|
    && IsCheckpointInto(t[k - 4], srcImages)
    && t[k - 1].Scp? && t[k - 1].dstPath == dstImages
    && t[k - 3] == Run(Source, Argv(Archive(t[k - 1].srcPath, srcImages)))
    && t[k - 2] == Run(Destination, Argv(Mkdir(dstImages)))
    && t[k] == Run(Destination, Argv(Extract(dstImages + "/" + Split(t[k - 1].srcPath).1, dstImages)))
  }

  predicate IsCheckpointInto(e: Event, imagesPath: string)
  {
    && e.Run? && e.host == Source
    && CommandOf(e).Some? && CommandOf(e).value.Checkpoint?
    && CommandOf(e).value.imagesPath == imagesPath
  }

  // ---------------------------------------------------------------------
  // Properties of the full protocol

  lemma PassDelivers(plan: Plan, g: Generation, mode: CheckpointMode, before: seq<Event>, after: seq<Event>)
    requires Separator !in g.tarName
    ensures DeliveredAt(before + Pass(plan, g, mode) + after, |before| + 4, g.srcImages, g.dstImages)
  {
    SplitJoin(plan.srcPath, g.tarName);
  }

  /** Within one pass, only the first event is a checkpoint (of the pass's
      mode), and no event is the clock marker or a restore. */
  lemma PassClassified(plan: Plan, g: Generation, mode: CheckpointMode)
    ensures var s := Pass(plan, g, mode);
      forall i :: 0 <= i < |s| ==>
        && !IsClockStart(s[i]) && !IsRestoreLaunch(s[i])
        && (IsPreDumpCheckpoint(s[i]) <==> i == 0 && mode.PreDump?)
        && (IsFinalCheckpoint(s[i]) <==> i == 0 && !mode.PreDump?)
        && (CommandOf(s[i]).Some? && (CommandOf(s[i]).value.Checkpoint? || CommandOf(s[i]).value.Restore?)
            ==> CommandOf(s[i]).value.id == plan.containerId)
  {
  }

  lemma NoSeparatorInArchiveNames()
    ensures Separator !in "dump.tar.gz" && Separator !in "predump.tar.gz"
  {
    assert forall i :: 0 <= i < |"dump.tar.gz"| ==> "dump.tar.gz"[i] != Separator;
    assert forall i :: 0 <= i < |"predump.tar.gz"| ==> "predump.tar.gz"[i] != Separator;
  }

  /** Single-pass mode: the source image directory is created, the clock
      starts, and the one and only checkpoint, a full one, follows at once;
      its image reaches the destination before the restore, which comes last
      and only once. */
  lemma SinglePassOrdering(plan: Plan)
    requires !plan.preDump
    ensures var p := Protocol(plan);
      && |p| == 8
      && p[0] == Run(Source, Argv(Mkdir(plan.srcPath + "/images")))
      && OnlyAt(p, 1, IsClockStart)
      && OnlyAt(p, 2, IsFinalCheckpoint)
      && CommandOf(p[2]) == Some(Checkpoint(plan.containerId, plan.srcPath + "/images", Full))
      && NoneIn(p, IsPreDumpCheckpoint)
      && DeliveredAt(p, 6, plan.srcPath + "/images", plan.dstPath + "/images")
      && OnlyAt(p, 7, IsRestoreLaunch)
  {
    var p := Protocol(plan);
    var g := SingleGeneration(plan);
    NoSeparatorInArchiveNames();
    PassDelivers(plan, g, Full, [Run(Source, Argv(Mkdir(g.srcImages))), ClockStart], [RestoreEvent(plan, g.dstImages)]);
    forall i | 0 <= i < |p|
      ensures IsClockStart(p[i]) ==> i == 1
      ensures IsFinalCheckpoint(p[i]) ==> i == 2
      ensures !IsPreDumpCheckpoint(p[i])
      ensures IsRestoreLaunch(p[i]) ==> i == 7
    {
      SinglePassPosition(plan, i);
    }
  }

  /** What kind of event sits at each position of the single-pass protocol;
      every `runc` call names the plan's container. */
  lemma SinglePassPosition(plan: Plan, i: int)
    requires !plan.preDump && 0 <= i < |Protocol(plan)|
    ensures var e := Protocol(plan)[i];
      && !IsPreDumpCheckpoint(e)
      && (IsClockStart(e) <==> i == 1)
      && (IsFinalCheckpoint(e) <==> i == 2)
      && (IsRestoreLaunch(e) <==> i == 7)
      && (CommandOf(e).Some? && (CommandOf(e).value.Checkpoint? || CommandOf(e).value.Restore?)
          ==> CommandOf(e).value.id == plan.containerId)
  {
    var p := Protocol(plan);
    var g := SingleGeneration(plan);
    var s := Pass(plan, g, Full);
    assert p == [Run(Source, Argv(Mkdir(g.srcImages))), ClockStart] + s + [RestoreEvent(plan, g.dstImages)];
    if i == 0 {
      assert p[i] == Run(Source, Argv(Mkdir(g.srcImages)));
    } else if i == 1 {
      assert p[i] == ClockStart;
    } else if i < 7 {
      PassClassified(plan, g, Full);
      assert p[i] == s[i - 2];
    } else {
      assert p[i] == RestoreEvent(plan, g.dstImages);
    }
  }

  /** The pre-dump protocol as its parts: the source directory for
      generation 0, the generation-0 pass, the clock marker, the final pass
      with generation 0's source directory as delta base, and the restore. */
  lemma PreDumpParts(plan: Plan)
    requires plan.preDump
    ensures var g0, g1 := PreDumpGeneration(plan), FinalGeneration(plan);
      Protocol(plan) == [Run(Source, Argv(Mkdir(g0.srcImages)))] + Pass(plan, g0, PreDump)
                        + [ClockStart] + Pass(plan, g1, Incremental(g0.srcImages))
                        + [RestoreEvent(plan, g1.dstImages)]
  {
  }

  /** What kind of event sits at each position of the pre-dump protocol. */
  lemma PreDumpPosition(plan: Plan, i: int)
    requires plan.preDump && 0 <= i < |Protocol(plan)|
    ensures var e := Protocol(plan)[i];
      && (IsPreDumpCheckpoint(e) <==> i == 1)
      && (IsClockStart(e) <==> i == 6)
      && (IsFinalCheckpoint(e) <==> i == 7)
      && (IsRestoreLaunch(e) <==> i == 12)
      && (CommandOf(e).Some? && (CommandOf(e).value.Checkpoint? || CommandOf(e).value.Restore?)
          ==> CommandOf(e).value.id == plan.containerId)
  {
    var p := Protocol(plan);
    var g0, g1 := PreDumpGeneration(plan), FinalGeneration(plan);
    var s0, s1 := Pass(plan, g0, PreDump), Pass(plan, g1, Incremental(g0.srcImages));
    PreDumpParts(plan);
    if i == 0 {
      assert p[i] == Run(Source, Argv(Mkdir(g0.srcImages)));
    } else if i < 6 {
      PassClassified(plan, g0, PreDump);
      assert p[i] == s0[i - 1];
    } else if i == 6 {
      assert p[i] == ClockStart;
    } else if i < 12 {
      PassClassified(plan, g1, Incremental(g0.srcImages));
      assert p[i] == s1[i - 7];
    } else {
      assert p[i] == RestoreEvent(plan, g1.dstImages);
    }
  }

  /** The pre-dump protocol up to the clock start, event by event. */
  lemma PreDumpFirstEvents(plan: Plan)
    requires plan.preDump
    ensures var p, src, dst, id := Protocol(plan), plan.srcPath, plan.dstPath, plan.containerId;
      && |p| == 13
      && p[0] == Run(Source, Argv(Mkdir(src + "/images/0")))
      && p[1] == Run(Source, Argv(Checkpoint(id, src + "/images/0", PreDump)))
      && p[2] == Run(Source, Argv(Archive(src + "/" + "predump.tar.gz", src + "/images/0")))
      && p[3] == Run(Destination, Argv(Mkdir(dst + "/images/0")))
      && p[4] == Scp(src + "/" + "predump.tar.gz", dst + "/images/0")
      && p[5] == Run(Destination, Argv(Extract(dst + "/images/0" + "/" + "predump.tar.gz", dst + "/images/0")))
  {
    PreDumpParts(plan);
  }

  /** The pre-dump protocol from the clock start on. */
  lemma PreDumpFinalEvents(plan: Plan)
    requires plan.preDump
    ensures var p, src, dst, id := Protocol(plan), plan.srcPath, plan.dstPath, plan.containerId;
      && |p| == 13
      && p[6] == ClockStart
      && p[7] == Run(Source, Argv(Checkpoint(id, src + "/images/1", Incremental(src + "/images/0"))))
      && p[8] == Run(Source, Argv(Archive(src + "/" + "dump.tar.gz", src + "/images/1")))
      && p[9] == Run(Destination, Argv(Mkdir(dst + "/images/1")))
      && p[10] == Scp(src + "/" + "dump.tar.gz", dst + "/images/1")
      && p[11] == Run(Destination, Argv(Extract(dst + "/images/1" + "/" + "dump.tar.gz", dst + "/images/1")))
      && p[12] == RestoreEvent(plan, dst + "/images/1")
  {
    PreDumpParts(plan);
  }

  /** The single-pass protocol event by event. */
  lemma SinglePassEvents(plan: Plan)
    requires !plan.preDump
    ensures var p, src, dst, id := Protocol(plan), plan.srcPath, plan.dstPath, plan.containerId;
      && |p| == 8
      && p[0] == Run(Source, Argv(Mkdir(src + "/images")))
      && p[1] == ClockStart
      && p[2] == Run(Source, Argv(Checkpoint(id, src + "/images", Full)))
      && p[3] == Run(Source, Argv(Archive(src + "/" + "dump.tar.gz", src + "/images")))
      && p[4] == Run(Destination, Argv(Mkdir(dst + "/images")))
      && p[5] == Scp(src + "/" + "dump.tar.gz", dst + "/images")
      && p[6] == Run(Destination, Argv(Extract(dst + "/images" + "/" + "dump.tar.gz", dst + "/images")))
      && p[7] == RestoreEvent(plan, dst + "/images")
  {
  }

  /** Pre-dump mode, the pass that keeps the container running: generation
      0 is checkpointed into `images/0` by the only pre-dump checkpoint and
      reaches the destination's `images/0`, all before the clock starts at
      position 6. */
  lemma PreDumpGenerationZero(plan: Plan)
    requires plan.preDump
    ensures var p := Protocol(plan);
      && |p| == 13
      && p[0] == Run(Source, Argv(Mkdir(plan.srcPath + "/images/0")))
      && OnlyAt(p, 1, IsPreDumpCheckpoint)
      && CommandOf(p[1]) == Some(Checkpoint(plan.containerId, plan.srcPath + "/images/0", PreDump))
      && DeliveredAt(p, 5, plan.srcPath + "/images/0", plan.dstPath + "/images/0")
      && OnlyAt(p, 6, IsClockStart)
  {
    var p := Protocol(plan);
    var g0, g1 := PreDumpGeneration(plan), FinalGeneration(plan);
    var s0, s1 := Pass(plan, g0, PreDump), Pass(plan, g1, Incremental(g0.srcImages));
    var head := [Run(Source, Argv(Mkdir(g0.srcImages)))];
    PreDumpFinalPositions(plan);
    var rest := [ClockStart] + s1 + [RestoreEvent(plan, g1.dstImages)];
    PreDumpParts(plan);
    assert p == head + s0 + rest;
    NoSeparatorInArchiveNames();
    PassDelivers(plan, g0, PreDump, head, rest);
    PassClassified(plan, g0, PreDump);
    PassClassified(plan, g1, Incremental(g0.srcImages));
    forall i | 0 <= i < |p| && IsPreDumpCheckpoint(p[i]) ensures i == 1 {
      PreDumpPosition(plan, i);
    }
  }

  /** Pre-dump mode: where the clock start, the final checkpoint and the
      restore sit in the protocol, and that each occurs nowhere else. */
  lemma PreDumpFinalPositions(plan: Plan)
    requires plan.preDump
    ensures var p := Protocol(plan);
      && |p| == 13
      && OnlyAt(p, 6, IsClockStart)
      && OnlyAt(p, 7, IsFinalCheckpoint)
      && OnlyAt(p, 12, IsRestoreLaunch)
  {
    var p := Protocol(plan);
    PreDumpParts(plan);
    var g0, g1 := PreDumpGeneration(plan), FinalGeneration(plan);
    PassClassified(plan, g1, Incremental(g0.srcImages));
    assert IsClockStart(p[6]) && IsRestoreLaunch(p[12]);
    forall i | 0 <= i < |p|
      ensures IsClockStart(p[i]) ==> i == 6
      ensures IsFinalCheckpoint(p[i]) ==> i == 7
      ensures IsRestoreLaunch(p[i]) ==> i == 12
    {
      PreDumpPosition(plan, i);
    }
  }

  /** Pre-dump mode, the pass that stops the container: the clock starts at
      position 6, immediately before the one final checkpoint, which writes
      `images/1` using generation 0's source directory as its delta base;
      its image reaches the destination's `images/1`; the restore comes last
      and only once. */
  lemma PreDumpFinalPass(plan: Plan)
    requires plan.preDump
    ensures var p := Protocol(plan);
      && |p| == 13
      && OnlyAt(p, 6, IsClockStart)
      && OnlyAt(p, 7, IsFinalCheckpoint)
      && CommandOf(p[7]) == Some(Checkpoint(plan.containerId, plan.srcPath + "/images/1",
                                            Incremental(plan.srcPath + "/images/0")))
      && DeliveredAt(p, 11, plan.srcPath + "/images/1", plan.dstPath + "/images/1")
      && OnlyAt(p, 12, IsRestoreLaunch)
  {
    var p := Protocol(plan);
    var g0, g1 := PreDumpGeneration(plan), FinalGeneration(plan);
    var s0, s1 := Pass(plan, g0, PreDump), Pass(plan, g1, Incremental(g0.srcImages));
    var head := [Run(Source, Argv(Mkdir(g0.srcImages)))] + s0 + [ClockStart];
    var tail := [RestoreEvent(plan, g1.dstImages)];
    PreDumpParts(plan);
    assert p == head + s1 + tail;
    NoSeparatorInArchiveNames();
    PassDelivers(plan, g1, Incremental(g0.srcImages), head, tail);
    DecodeArgv(Checkpoint(plan.containerId, g1.srcImages, Incremental(g0.srcImages)));
    PreDumpFinalPositions(plan);
  }

  /** Pre-dump half of RestoreComesLast. */
  lemma PreDumpRestoreLast(plan: Plan)
    requires plan.preDump
    ensures var p := Protocol(plan);
      && |p| == 13
      && OnlyAt(p, 12, IsRestoreLaunch)
      && p[11] == Run(Destination, Argv(Extract(plan.dstPath + "/images/1" + "/" + "dump.tar.gz", plan.dstPath + "/images/1")))
      && p[12] == RestoreEvent(plan, plan.dstPath + "/images/1")
  {
    PreDumpFinalEvents(plan);
    PreDumpFinalPositions(plan);
  }

  /** Single-pass half of RestoreComesLast. */
  lemma SinglePassRestoreLast(plan: Plan)
    requires !plan.preDump
    ensures var p := Protocol(plan);
      && |p| == 8
      && OnlyAt(p, 7, IsRestoreLaunch)
      && p[6] == Run(Destination, Argv(Extract(plan.dstPath + "/images" + "/" + "dump.tar.gz", plan.dstPath + "/images")))
      && p[7] == RestoreEvent(plan, plan.dstPath + "/images")
  {
    var p := Protocol(plan);
    SinglePassEvents(plan);
    forall i | 0 <= i < |p| && IsRestoreLaunch(p[i]) ensures i == 7 {
      SinglePassPosition(plan, i);
    }
  }

  /** In both modes the restore is the last event and issued once; it uses
      the directory the unpack just before it wrote into, the container id
      of the checkpoints, and the configuration files at the destination
      path. */
  lemma RestoreComesLast(plan: Plan)
    ensures var p := Protocol(plan);
      && OnlyAt(p, |p| - 1, IsRestoreLaunch)
      && IsUnpack(p[|p| - 2])
      && CommandOf(p[|p| - 1]) == Some(Restore(plan.containerId, CommandOf(p[|p| - 2]).value.workDir,
                                              plan.dstPath + "/config.json", plan.dstPath + "/runtime.json"))
      && CommandOf(p[|p| - 2]).value.workDir == plan.dstPath + (if plan.preDump then "/images/1" else "/images")
  {
    if plan.preDump {
      var dstImages := plan.dstPath + "/images/1";
      PreDumpRestoreLast(plan);
      DecodeArgv(Extract(dstImages + "/" + "dump.tar.gz", dstImages));
      DecodeArgv(Restore(plan.containerId, dstImages, plan.dstPath + "/config.json", plan.dstPath + "/runtime.json"));
    } else {
      var dstImages := plan.dstPath + "/images";
      SinglePassRestoreLast(plan);
      DecodeArgv(Extract(dstImages + "/" + "dump.tar.gz", dstImages));
      DecodeArgv(Restore(plan.containerId, dstImages, plan.dstPath + "/config.json", plan.dstPath + "/runtime.json"));
    }
  }

  /** Every `runc` invocation of a migration names the same container. */
  lemma OneContainerId(plan: Plan)
    ensures var p := Protocol(plan);
      forall i :: 0 <= i < |p| && CommandOf(p[i]).Some? && (CommandOf(p[i]).value.Checkpoint? || CommandOf(p[i]).value.Restore?)
        ==> CommandOf(p[i]).value.id == plan.containerId
  {
    var p := Protocol(plan);
    forall i | 0 <= i < |p| && CommandOf(p[i]).Some? && (CommandOf(p[i]).value.Checkpoint? || CommandOf(p[i]).value.Restore?)
      ensures CommandOf(p[i]).value.id == plan.containerId
    {
      if plan.preDump {
        PreDumpPosition(plan, i);
      } else {
        SinglePassPosition(plan, i);
      }
    }
  }

  // ---------------------------------------------------------------------
  // Fail-fast execution

  /** What the migration reports: the restore was launched, or the step at
      this position of the trace failed and the process stopped there. */
  datatype Outcome = RestoreStarted | Fatal(step: nat)

  /** The event at position `k` is a remote operation that reports an error
      according to the oracle `fails`; the clock marker never fails. */
  predicate Fails(t: seq<Event>, k: nat, fails: nat -> bool)
    requires k < |t|
  {
    !t[k].ClockStart? && fails(k)
  }

  /** No operation in `t` failed. */
  predicate Clean(t: seq<Event>, fails: nat -> bool)
  {
    forall k :: 0 <= k < |t| ==> !Fails(t, k, fails)
  }

  /** The trace is the protocol up to and including the first failing
      operation: every earlier operation succeeded, the outcome names the
      failing one, and the restore is reported started only when the whole
      protocol ran without error. */
  ghost predicate FailFast(trace: seq<Event>, outcome: Outcome, p: seq<Event>, fails: nat -> bool)
  {
    && 0 < |trace| <= |p| && trace == p[..|trace|]
    && Clean(trace[..|trace| - 1], fails)
    && match outcome
       case RestoreStarted => |trace| == |p| && !Fails(trace, |trace| - 1, fails)
       case Fatal(step) => step == |trace| - 1 && Fails(trace, step, fails)
  }

  /** A trace that follows the protocol so far still does after the
      protocol's next event. */
  lemma PrefixStep(p: seq<Event>, trace: seq<Event>, e: Event)
    requires |trace| < |p| && trace == p[..|trace|] && p[|trace|] == e
    ensures trace + [e] == p[..|trace| + 1]
  {
    assert p[..|trace| + 1] == p[..|trace|] + [p[|trace|]];
  }

  /** The last operation of a trace that follows the protocol failed after
      all earlier ones succeeded: the migration stops there. */
  lemma Halt(p: seq<Event>, before: seq<Event>, trace: seq<Event>, fails: nat -> bool)
    requires |before| < |p| && trace == p[..|before| + 1] && trace[..|before|] == before
    requires Clean(before, fails) && Fails(trace, |before|, fails)
    ensures FailFast(trace, Fatal(|trace| - 1), p, fails)
  {
  }

  /** FailFast leaves no choice: for a given protocol and oracle there is at
      most one trace and outcome satisfying it. */
  lemma FailFastUnique(p: seq<Event>, fails: nat -> bool,
                       t1: seq<Event>, o1: Outcome, t2: seq<Event>, o2: Outcome)
    requires FailFast(t1, o1, p, fails)
    requires FailFast(t2, o2, p, fails)
    ensures t1 == t2 && o1 == o2
  {
    FailFastNotShorter(p, fails, t1, o1, t2, o2);
    FailFastNotShorter(p, fails, t2, o2, t1, o1);
  }

  lemma FailFastNotShorter(p: seq<Event>, fails: nat -> bool,
                           t1: seq<Event>, o1: Outcome, t2: seq<Event>, o2: Outcome)
    requires FailFast(t1, o1, p, fails)
    requires FailFast(t2, o2, p, fails)
    ensures |t1| >= |t2|
  {
    if |t1| < |t2| {
      var k := |t1| - 1;
      assert t2[..|t2| - 1][k] == t1[k];
      // Mentioning Fails(...) at k lets Clean's quantifier fire there; an
      // assert of it would itself be proved from the clash that follows.
      ghost var earlier := Fails(t2[..|t2| - 1], k, fails);
      assert false;
    }
  }

  /** The restore is launched only at the very end, and only when every
      earlier step succeeded: a trace that stops on any other failing step
      holds no restore at all. */
  lemma NoRestoreAfterFailure(plan: Plan, trace: seq<Event>, outcome: Outcome, fails: nat -> bool)
    requires FailFast(trace, outcome, Protocol(plan), fails)
    ensures outcome.RestoreStarted? ==> trace == Protocol(plan)
    ensures (exists i :: 0 <= i < |trace| && IsRestoreLaunch(trace[i])) <==> |trace| == |Protocol(plan)|
    ensures outcome.Fatal? && outcome.step < |Protocol(plan)| - 1 ==> NoneIn(trace, IsRestoreLaunch)
  {
    var p := Protocol(plan);
    RestoreComesLast(plan);
    if |trace| == |p| {
      assert trace == p;
      assert IsRestoreLaunch(trace[|p| - 1]);
    } else {
      forall i | 0 <= i < |trace| ensures !IsRestoreLaunch(trace[i]) {
        assert trace[i] == p[i];
      }
    }
  }

  /** Downtime starts counting only once the steps before the marker have
      all succeeded: a failure before it (in pre-dump mode, anywhere in
      generation 0) leaves neither the marker nor a container-stopping
      checkpoint in the trace. */
  lemma ClockOnlyAfterPreparation(plan: Plan, trace: seq<Event>, outcome: Outcome, fails: nat -> bool)
    requires FailFast(trace, outcome, Protocol(plan), fails)
    ensures NoneIn(trace, IsClockStart) <==> |trace| <= ClockIndex(plan)
    ensures |trace| <= ClockIndex(plan) ==> NoneIn(trace, IsFinalCheckpoint) && outcome.Fatal?
  {
    var p := Protocol(plan);
    var c := ClockIndex(plan);
    if plan.preDump { PreDumpFinalPass(plan); } else { SinglePassOrdering(plan); }
    if |trace| <= c {
      forall i | 0 <= i < |trace| ensures !IsClockStart(trace[i]) && !IsFinalCheckpoint(trace[i]) {
        assert trace[i] == p[i];
      }
    } else {
      assert trace[c] == p[c];
    }
  }

  /** The scenario of a pre-dump migration whose generation-0 copy fails:
      the migration stops at that copy, before the clock starts and before
      the container is stopped, and no restore is issued. */
  lemma PreDumpTransferFailure(plan: Plan, trace: seq<Event>, outcome: Outcome, fails: nat -> bool)
    requires plan.preDump
    requires forall k :: 0 <= k < 4 ==> !fails(k)
    requires fails(4)
    requires FailFast(trace, outcome, Protocol(plan), fails)
    ensures outcome == Fatal(4)
    ensures trace[4] == Scp(plan.srcPath + "/predump.tar.gz", plan.dstPath + "/images/0")
    ensures NoneIn(trace, IsClockStart) && NoneIn(trace, IsRestoreLaunch)
  {
    var p := Protocol(plan);
    PreDumpParts(plan);
    PreDumpPosition(plan, 4);
    assert p[4] == Pass(plan, PreDumpGeneration(plan), PreDump)[3];
    if |trace| > 5 {
      // the copy at position 4 would have had to succeed
      assert trace[..|trace| - 1][4] == p[4];
      // As in FailFastNotShorter: the term makes Clean speak about position 4.
      ghost var copyFailed := Fails(trace[..|trace| - 1], 4, fails);
      assert false;
    }
    ClockOnlyAfterPreparation(plan, trace, outcome, fails);
    NoRestoreAfterFailure(plan, trace, outcome, fails);
  }
}
