/**
 * The remote command lines the migration issues. Each operation is a
 * `Command` value; `Argv` spells it as the argument vector handed to the
 * remote executor (program first), and `Decode` reads such a vector back.
 */
module Commands {

  import opened Paths

  datatype Option<T> = None | Some(value: T)

  /** The three ways `runc checkpoint` is invoked: a plain dump, a pre-dump
      that leaves the container running, and a final dump that uses an
      earlier pre-dump as its delta base. */
  datatype CheckpointMode = Full | PreDump | Incremental(prevImagesDir: string)

  datatype Command =
    | Mkdir(path: string)
    | Checkpoint(id: string, imagesPath: string, mode: CheckpointMode)
    | Archive(tarFile: string, workDir: string)
    | Extract(tarFile: string, workDir: string)
    | Restore(id: string, imagesPath: string, configFile: string, runtimeFile: string)
    | Stat(path: string)

  /** Directory whose entry per container the liveness check looks at. */
  const StateDir: string := "/var/run/opencontainer/containers/"

  function StatePath(id: string): string
  {
    StateDir + id
  }

  function ModeFlags(mode: CheckpointMode): seq<string>
  {
    match mode
    case Full => []
    case PreDump => ["--pre-dump"]
    case Incremental(prev) => ["--prev-images-dir", prev]
  }

  function DecodeMode(flags: seq<string>): (r: Option<CheckpointMode>)
    ensures r.Some? ==> ModeFlags(r.value) == flags
  {
    if flags == [] then Some(Full)
    else if flags == ["--pre-dump"] then Some(PreDump)
    else if |flags| == 2 && flags[0] == "--prev-images-dir" then Some(Incremental(flags[1]))
    else None
  }

  /** The argument vector of each command, program name first; `sudo` wraps
      everything except `mkdir` and `stat`. The archive is made from inside
      the work directory ("-C dir/ ."), so its members are relative. */
  function Argv(c: Command): (argv: seq<string>)
    ensures |argv| >= 2
    ensures argv[0] == (if c.Mkdir? then "mkdir" else if c.Stat? then "stat" else "sudo")
  {
    match c
    case Mkdir(path) => ["mkdir", "-p", path]
    case Checkpoint(id, imagesPath, mode) =>
      ["sudo", "runc", "--id", id, "checkpoint", "--image-path", imagesPath] + ModeFlags(mode)
    case Archive(tarFile, workDir) =>
      ["sudo", "tar", "-czf", tarFile, "-C", workDir + "/", "."]
    case Extract(tarFile, workDir) => ["sudo", "tar", "-C", workDir, "-xvzf", tarFile]
    case Restore(id, imagesPath, configFile, runtimeFile) =>
      ["sudo", "runc", "--id", id, "restore", "--image-path", imagesPath,
       "--config-file", configFile, "--runtime-file", runtimeFile]
    case Stat(path) => ["stat", path]
  }

  /** Reads an argument vector back as the command it spells, if any. */
  function Decode(argv: seq<string>): (r: Option<Command>)
  {
    if |argv| == 3 && argv[0] == "mkdir" && argv[1] == "-p" then
      Some(Mkdir(argv[2]))
    else if |argv| == 2 && argv[0] == "stat" then
      Some(Stat(argv[1]))
    else if |argv| == 7 && argv[0] == "sudo" && argv[1] == "tar" && argv[2] == "-czf"
            && argv[4] == "-C" && argv[6] == "." && |argv[5]| > 0 && argv[5][|argv[5]| - 1] == '/' then
      Some(Archive(argv[3], argv[5][..|argv[5]| - 1]))
    else if |argv| == 6 && argv[0] == "sudo" && argv[1] == "tar" && argv[2] == "-C" && argv[4] == "-xvzf" then
      Some(Extract(argv[5], argv[3]))
    else if |argv| >= 7 && argv[0] == "sudo" && argv[1] == "runc" && argv[2] == "--id"
            && argv[4] == "checkpoint" && argv[5] == "--image-path" then
      match DecodeMode(argv[7..])
      case Some(mode) => Some(Checkpoint(argv[3], argv[6], mode))
      case None => None
    else if |argv| == 11 && argv[0] == "sudo" && argv[1] == "runc" && argv[2] == "--id"
            && argv[4] == "restore" && argv[5] == "--image-path"
            && argv[7] == "--config-file" && argv[9] == "--runtime-file" then
      Some(Restore(argv[3], argv[6], argv[8], argv[10]))
    else
      None
  }

  /** Reading a command line back gives the command it was made from. */
  lemma DecodeArgv(c: Command)
    ensures Decode(Argv(c)) == Some(c)
  {
    if c.Archive? {
      assert (c.workDir + "/")[..|c.workDir|] == c.workDir;
    } else if c.Checkpoint? {
      assert Argv(c)[7..] == ModeFlags(c.mode);
    }
  }

  /** Decode accepts only command lines that Argv produces: reading a vector
      and spelling the command out again gives the same vector. */
  lemma DecodeSound(argv: seq<string>)
    requires Decode(argv).Some?
    ensures Argv(Decode(argv).value) == argv
  {
    if |argv| == 7 && argv[0] == "sudo" && argv[1] == "tar" && argv[2] == "-czf" {
      assert argv[5][..|argv[5]| - 1] + "/" == argv[5];
    } else if |argv| >= 7 && argv[0] == "sudo" && argv[1] == "runc" && argv[4] == "checkpoint" {
      assert argv == argv[..7] + argv[7..];
    }
  }

  /** Distinct commands never share a command line. */
  lemma ArgvInjective(c: Command, d: Command)
    requires Argv(c) == Argv(d)
    ensures c == d
  {
    DecodeArgv(c);
    DecodeArgv(d);
  }

  /** The argument vector of the `checkpoint` helper: `sudo runc --id <id>
      checkpoint --image-path <path>`, then `--pre-dump` as the very last
      argument exactly when a pre-dump is asked for. */
  lemma CheckpointArgvShape(id: string, imagesPath: string, predump: bool)
    ensures var argv := Argv(Checkpoint(id, imagesPath, if predump then PreDump else Full));
      && argv[..7] == ["sudo", "runc", "--id", id, "checkpoint", "--image-path", imagesPath]
      && (|argv| == 8 <==> predump)
      && (|argv| == 7 <==> !predump)
      && (predump ==> argv[|argv| - 1] == "--pre-dump")
  {
  }

  /** isRunning, polarity as in the source: the container counts as running
      exactly when `stat` of its state entry on the destination REPORTS AN
      ERROR. `statFails` is the destination's answer to a command line. */
  function IsRunning(id: string, statFails: seq<string> -> bool): (running: bool)
    ensures running <==> statFails(["stat", StateDir + id])
  {
    var failed := statFails(Argv(Stat(StatePath(id))));
    if failed then true else false
  }

  /** The state entry the liveness check inspects is the one named by the
      container id: its last path segment is the id again. */
  lemma StatePathNamesContainer(id: string)
    requires Separator !in id
    ensures GetContainerId(StatePath(id)) == id
  {
    var dir := "/var/run/opencontainer/containers";
    assert StatePath(id) == dir + [Separator] + id;
    SplitJoin(dir, id);
  }
}
