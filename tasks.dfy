/**
 * The doit task records: what each target kind's `create_doit_tasks`
 * yields for one target, the emission over the matrix, and
 * `task_shortcuts`.
 */
module Tasks {
  import opened Wrappers
  import opened PyStr
  import opened Targets
  import opened Matrix
  import S6Template

  /** `DockerimageTargets.latest`: the Python version whose images are also tagged ":latest". */
  const Latest: string := "3.10"
  /** The trivy server the scans use when running under CI. */
  const TrivyServer: string := "http://trivy.query.consul"
  /** The build context directory of the S6 image builds. */
  const S6BuildContext: string := "dockerbuildcontext"

  /** One entry of a task's "actions" list. */
  datatype Action =
    | Command(argv: seq<string>)  // an argument list doit runs as a process
    | Build(target: Target)       // the bound method `target.build`

  /** A task dictionary: keys the source leaves out are `None`. */
  datatype Task = Task(
    basename: string,
    fileDep: Option<seq<string>>,
    actions: Option<seq<Action>>,
    taskDep: Option<seq<string>>)

  /** BUILD_DATE, BUILD_URL and BUILD_NUMBER, read from the process environment and clock at start-up. */
  datatype BuildInfo = BuildInfo(date: string, url: string, number: string)

  /** What the task records need beyond the target: the build metadata and whether BUILD_URL is set. */
  datatype Environment = Environment(info: BuildInfo, inCi: bool)

  /** `self.basename` of a task-emitting target. */
  function Name(t: Target): string
    requires t.kind != Base
  {
    Basename(t).value
  }

  /** `self.fulltag` of an image or test target. */
  function ImageTag(t: Target): string
    requires HasImageName(t.kind)
  {
    Fulltag(t).value
  }

  /** `fulltag.split(":")[0] + ":latest"` */
  function LatestTag(fulltag: string): string
  {
    Split(fulltag, ':')[0] + ":latest"
  }

  /** The "docker tag" action: for the latest Python version only, it aliases the image as the repository's "latest". */
  function TagLatest(t: Target): (argvs: seq<seq<string>>)
    requires HasImageName(t.kind)
    ensures t.pythonVersion == Latest ==> argvs == [["docker", "tag", ImageTag(t), ImageRepository + ":latest"]]
    ensures t.pythonVersion != Latest ==> argvs == []
  {
    LatestTagIsRepository(t);
    if t.pythonVersion == Latest then [["docker", "tag", ImageTag(t), LatestTag(ImageTag(t))]] else []
  }

  /**
   * The build command of `DockerimageTargets`: builds the key's directory,
   * pulling the base image, under the full tag, writing the image id to the
   * file named by the basename.
   */
  function DockerimageBuild(t: Target): (argv: seq<string>)
    requires t.kind == Dockerimage
    ensures |argv| > 2 && argv[..2] == ["docker", "build"] && "--pull" in argv
    ensures HasOption(argv, "--tag", ImageTag(t)) && HasOption(argv, "--iidfile", Name(t))
    ensures argv[|argv| - 1] == Subdir(t)
  {
    var argv := ["docker", "build", "--pull", "--iidfile", Name(t), "--tag", ImageTag(t), Subdir(t)];
    assert argv[5] == "--tag" && argv[6] == ImageTag(t);
    assert argv[3] == "--iidfile" && argv[4] == Name(t);
    argv
  }

  /** The S6 Dockerfile target with the same key (`associated_dockerfile_target`). */
  function AssociatedS6Dockerfile(t: Target): Target
  {
    Target(S6Dockerfile, t.osVariant, t.pythonVersion, t.baseOs)
  }

  /** The "--build-arg" pairs of the S6 image build: the build metadata, then two fixed git placeholders. */
  function S6BuildArgs(info: BuildInfo): seq<string>
  {
    ["--build-arg", "PY3S6_BUILD_DATE=" + info.date,
     "--build-arg", "PY3S6_BUILD_URL=" + info.url,
     "--build-arg", "PY3S6_BUILD_NUMBER=" + info.number,
     "--build-arg", "PY3S6_GIT_COMMIT=d",
     "--build-arg", "PY3S6_GIT_COMMIT_DATE=e"]
  }

  /**
   * The build command of `S6DockerimageTargets`: builds the same key's
   * generated S6 Dockerfile under the full tag, writing the image id to the
   * file named by the basename, in the fixed build context.
   */
  function S6DockerimageBuild(t: Target, info: BuildInfo): (argv: seq<string>)
    requires t.kind == S6Dockerimage
    ensures |argv| > 2 && argv[..2] == ["docker", "build"]
    ensures HasOption(argv, "--file", Name(AssociatedS6Dockerfile(t)))
    ensures HasOption(argv, "--tag", ImageTag(t)) && HasOption(argv, "--iidfile", Name(t))
    ensures argv[|argv| - 1] == S6BuildContext
  {
    var argv := ["docker", "build", "--file", Name(AssociatedS6Dockerfile(t)), "--iidfile", Name(t), "--tag", ImageTag(t)]
      + S6BuildArgs(info) + [S6BuildContext];
    assert argv[2] == "--file" && argv[3] == Name(AssociatedS6Dockerfile(t));
    assert argv[6] == "--tag" && argv[7] == ImageTag(t);
    assert argv[4] == "--iidfile" && argv[5] == Name(t);
    argv
  }

  /** Argument lists as doit actions. */
  function Commands(argvs: seq<seq<string>>): (r: seq<Action>)
    ensures |r| == |argvs|
    ensures forall n :: 0 <= n < |argvs| ==> r[n] == Command(argvs[n])
  {
    seq(|argvs|, n requires 0 <= n < |argvs| => Command(argvs[n]))
  }

  /** `trivy_arguments`: a remote scan under CI, a local one otherwise. */
  function TrivyArguments(inCi: bool): seq<string>
  {
    if inCi then ["client", "--remote", TrivyServer] else ["image"]
  }

  /** One trivy scan of `image` that fails with `exitCode` on findings of `severity`. */
  function Scan(inCi: bool, severity: string, exitCode: string, image: string): (argv: seq<string>)
    ensures IsScan(argv, inCi, severity, exitCode, image)
  {
    ["trivy"] + TrivyArguments(inCi) + ["--severity", severity, "--exit-code", exitCode, image]
  }

  /** The three test commands: a smoke run, an advisory HIGH scan and a blocking CRITICAL scan, all of the full tag. */
  function TestCommands(t: Target, inCi: bool): (argvs: seq<seq<string>>)
    requires HasImageName(t.kind)
    ensures |argvs| == 3
    ensures |argvs[0]| > 3 && argvs[0][..3] == ["docker", "run", "--rm"] && ImageTag(t) in argvs[0]
    ensures IsScan(argvs[1], inCi, "HIGH", "0", ImageTag(t))
    ensures IsScan(argvs[2], inCi, "CRITICAL", "1", ImageTag(t))
  {
    [["docker", "run", "--rm", ImageTag(t), "python", "--version"],
     Scan(inCi, "HIGH", "0", ImageTag(t)),
     Scan(inCi, "CRITICAL", "1", ImageTag(t))]
  }

  /**
   * The dictionary the target's class yields for it. Every task is named by
   * the target's basename; only the S6 Dockerfile task declares file
   * dependencies and no target task declares task dependencies.
   */
  function TaskFor(t: Target, env: Environment): (task: Task)
    requires t.kind != Base
    ensures task.basename == Basename(t).value
    ensures task.fileDep.Some? <==> t.kind == S6Dockerfile
    ensures task.fileDep.Some? ==> task.fileDep.value == [S6Template.TemplateFile, S6Template.VarsFile]
    ensures task.taskDep.None?
    ensures task.actions.Some? && |task.actions.value| >= 1
  {
    match t.kind
    case Dockerfile => Task(Name(t), None, Some([Build(t)]), None)
    case S6Dockerfile =>
      Task(Name(t), Some([S6Template.TemplateFile, S6Template.VarsFile]), Some([Build(t)]), None)
    case Dockerimage => Task(Name(t), None, Some(Commands([DockerimageBuild(t)] + TagLatest(t))), None)
    case S6Dockerimage =>
      Task(Name(t), None, Some(Commands([S6DockerimageBuild(t, env.info)] + TagLatest(t))), None)
    case DockerimageTest => Task(Name(t), None, Some(Commands(TestCommands(t, env.inCi))), None)
    case S6DockerimageTest => Task(Name(t), None, Some(Commands(TestCommands(t, env.inCi))), None)
  }

  // ---------------------------------------------------------------------------
  // Properties of one task

  /** `flag` occurs in `argv` immediately followed by `value`. */
  predicate HasOption(argv: seq<string>, flag: string, value: string)
  {
    exists n :: 0 <= n < |argv| - 1 && argv[n] == flag && argv[n + 1] == value
  }

  lemma RepositoryHasNoColon()
    ensures ':' !in ImageRepository
  {
  }

  /** The ":latest" alias drops exactly the subtag: every image's alias is the repository's "latest" tag. */
  lemma LatestTagIsRepository(t: Target)
    requires HasImageName(t.kind)
    ensures LatestTag(ImageTag(t)) == ImageRepository + ":latest"
  {
    RepositoryHasNoColon();
    SplitAtFirst(ImageRepository, ':', Subtag(t));
    assert ImageTag(t) == ImageRepository + [':'] + Subtag(t);
  }

  /** The build command of either image kind names the image's full tag and its id file. */
  lemma BuildCommandOptions(t: Target, info: BuildInfo)
    requires t.kind == Dockerimage || t.kind == S6Dockerimage
    ensures var argv := if t.kind == Dockerimage then DockerimageBuild(t) else S6DockerimageBuild(t, info);
      && argv[..2] == ["docker", "build"]
      && HasOption(argv, "--tag", ImageTag(t))
      && HasOption(argv, "--iidfile", Basename(t).value)
  {
    if t.kind == Dockerimage {
      var argv := DockerimageBuild(t);
    } else {
      var argv := S6DockerimageBuild(t, info);
    }
  }

  /**
   * An image task builds the image under its full tag, records the image id
   * in the file named by its basename, and adds the ":latest" alias exactly
   * for the latest Python version.
   */
  lemma ImageTaskActions(t: Target, env: Environment)
    requires t.kind == Dockerimage || t.kind == S6Dockerimage
    ensures var acts := TaskFor(t, env).actions.value;
      && |acts| == (if t.pythonVersion == Latest then 2 else 1)
      && acts[0].Command? && acts[0].argv[..2] == ["docker", "build"]
      && HasOption(acts[0].argv, "--tag", ImageTag(t))
      && HasOption(acts[0].argv, "--iidfile", Basename(t).value)
      && (t.pythonVersion == Latest ==>
            acts[1] == Command(["docker", "tag", ImageTag(t), ImageRepository + ":latest"]))
  {
    LatestTagIsRepository(t);
    BuildCommandOptions(t, env.info);
    var build := if t.kind == Dockerimage then DockerimageBuild(t) else S6DockerimageBuild(t, env.info);
    assert TaskFor(t, env).actions.value == Commands([build] + TagLatest(t));
  }

  /** The plain image builds the patched Dockerfile's directory, pulling the base image. */
  lemma DockerimageBuildsSubdir(t: Target, env: Environment)
    requires t.kind == Dockerimage
    ensures var argv := TaskFor(t, env).actions.value[0].argv;
      "--pull" in argv && argv[|argv| - 1] == Subdir(t)
  {
    assert TaskFor(t, env).actions.value[0].argv == DockerimageBuild(t);
  }

  /** An option found in a middle segment is found in the whole argument list. */
  lemma HasOptionInside(a: seq<string>, b: seq<string>, c: seq<string>, flag: string, value: string)
    requires HasOption(b, flag, value)
    ensures HasOption(a + b + c, flag, value)
  {
    var n :| 0 <= n < |b| - 1 && b[n] == flag && b[n + 1] == value;
    assert (a + b + c)[|a| + n] == flag && (a + b + c)[|a| + n + 1] == value;
  }

  lemma S6BuildArgsOptions(info: BuildInfo)
    ensures HasOption(S6BuildArgs(info), "--build-arg", "PY3S6_BUILD_DATE=" + info.date)
    ensures HasOption(S6BuildArgs(info), "--build-arg", "PY3S6_BUILD_URL=" + info.url)
    ensures HasOption(S6BuildArgs(info), "--build-arg", "PY3S6_BUILD_NUMBER=" + info.number)
  {
    var args := S6BuildArgs(info);
    assert args[0] == "--build-arg" && args[1] == "PY3S6_BUILD_DATE=" + info.date;
    assert args[2] == "--build-arg" && args[3] == "PY3S6_BUILD_URL=" + info.url;
    assert args[4] == "--build-arg" && args[5] == "PY3S6_BUILD_NUMBER=" + info.number;
  }

  /**
   * The S6 image builds from the generated S6 Dockerfile of the same key and
   * passes the build metadata through as build arguments.
   */
  lemma S6DockerimageBuildsGeneratedFile(t: Target, env: Environment)
    requires t.kind == S6Dockerimage
    ensures var argv := TaskFor(t, env).actions.value[0].argv;
      && HasOption(argv, "--file", Basename(AssociatedS6Dockerfile(t)).value)
      && HasOption(argv, "--build-arg", "PY3S6_BUILD_DATE=" + env.info.date)
      && HasOption(argv, "--build-arg", "PY3S6_BUILD_URL=" + env.info.url)
      && HasOption(argv, "--build-arg", "PY3S6_BUILD_NUMBER=" + env.info.number)
      && argv[|argv| - 1] == S6BuildContext
  {
    var head := ["docker", "build", "--file", Name(AssociatedS6Dockerfile(t)), "--iidfile", Name(t), "--tag", ImageTag(t)];
    var args := S6BuildArgs(env.info);
    var argv := S6DockerimageBuild(t, env.info);
    assert TaskFor(t, env).actions.value[0].argv == argv == head + args + [S6BuildContext];
    S6BuildArgsOptions(env.info);
    HasOptionInside(head, args, [S6BuildContext], "--build-arg", "PY3S6_BUILD_DATE=" + env.info.date);
    HasOptionInside(head, args, [S6BuildContext], "--build-arg", "PY3S6_BUILD_URL=" + env.info.url);
    HasOptionInside(head, args, [S6BuildContext], "--build-arg", "PY3S6_BUILD_NUMBER=" + env.info.number);
  }

  /**
   * A trivy command scanning `image`, failing with `exitCode` on findings of
   * `severity`: a client of the remote server under CI, a local image scan
   * otherwise.
   */
  predicate IsScan(argv: seq<string>, inCi: bool, severity: string, exitCode: string, image: string)
  {
    |argv| >= 6 && argv[0] == "trivy"
    && argv[1..|argv| - 5] == (if inCi then ["client", "--remote", TrivyServer] else ["image"])
    && argv[|argv| - 5..] == ["--severity", severity, "--exit-code", exitCode, image]
  }

  /** A scan command has the scan shape and asks the remote server exactly under CI. */
  lemma ScanShape(inCi: bool, severity: string, exitCode: string, image: string)
    requires |image| > 0 && image[0] != '-' && |severity| > 0 && severity[0] != '-'
    requires |exitCode| > 0 && exitCode[0] != '-'
    ensures IsScan(Scan(inCi, severity, exitCode, image), inCi, severity, exitCode, image)
    ensures "--remote" in Scan(inCi, severity, exitCode, image) <==> inCi
  {
    var argv := Scan(inCi, severity, exitCode, image);
    assert "--remote"[0] == '-';
    if inCi {
      assert argv[2] == "--remote";
    } else {
      assert argv == ["trivy", "image", "--severity", severity, "--exit-code", exitCode, image];
    }
  }

  /**
   * A test task runs the image, then an advisory scan (HIGH, exit code 0),
   * then a blocking scan (CRITICAL, exit code 1), all against the target's
   * full tag; the scans use the remote trivy server exactly under CI.
   */
  lemma TestTaskActions(t: Target, env: Environment)
    requires t.kind == DockerimageTest || t.kind == S6DockerimageTest
    ensures var acts := TaskFor(t, env).actions.value;
      && |acts| == 3
      && acts[0] == Command(["docker", "run", "--rm", ImageTag(t), "python", "--version"])
      && acts[1].Command? && IsScan(acts[1].argv, env.inCi, "HIGH", "0", ImageTag(t))
      && acts[2].Command? && IsScan(acts[2].argv, env.inCi, "CRITICAL", "1", ImageTag(t))
      && ("--remote" in acts[1].argv <==> env.inCi)
      && ("--remote" in acts[2].argv <==> env.inCi)
  {
    var image := ImageTag(t);
    assert image[0] == 'r';
    ScanShape(env.inCi, "HIGH", "0", image);
    ScanShape(env.inCi, "CRITICAL", "1", image);
    assert TaskFor(t, env).actions.value == Commands(TestCommands(t, env.inCi));
  }

  /** Each test task checks the very image reference its image kind tags. */
  lemma TestsUseBuiltImage(osv: string, pyv: string, baseOs: string)
    ensures ImageTag(Target(DockerimageTest, osv, pyv, baseOs)) == ImageTag(Target(Dockerimage, osv, pyv, baseOs))
    ensures ImageTag(Target(S6DockerimageTest, osv, pyv, baseOs)) == ImageTag(Target(S6Dockerimage, osv, pyv, baseOs))
    ensures ImageTag(Target(Dockerimage, osv, pyv, baseOs)) != ImageTag(Target(S6Dockerimage, osv, pyv, baseOs))
  {
    var plain := ImageTag(Target(Dockerimage, osv, pyv, baseOs));
    var s6 := ImageTag(Target(S6Dockerimage, osv, pyv, baseOs));
    assert |s6| == |plain| + 3;
  }

  // ---------------------------------------------------------------------------
  // Emission over the matrix

  /** Every key's OS variant has an upstream source, so every target can be constructed. */
  predicate KnownVariants(keys: seq<Key>)
  {
    forall n :: 0 <= n < |keys| ==> keys[n].0 in SourceForVariant
  }

  /** The position of the first key whose OS variant has no upstream source. */
  function FirstUnknown(keys: seq<Key>): (p: nat)
    requires !KnownVariants(keys)
    ensures p < |keys| && keys[p].0 !in SourceForVariant
    ensures forall m :: 0 <= m < p ==> keys[m].0 in SourceForVariant
  {
    if keys[0].0 !in SourceForVariant then 0
    else
      assert !KnownVariants(keys[1..]) by {
        var n :| 0 <= n < |keys| && keys[n].0 !in SourceForVariant;
        assert keys[1..][n - 1] == keys[n];
      }
      1 + FirstUnknown(keys[1..])
  }

  /** The target of `kind` for a key whose OS variant is known. */
  function TargetAt(kind: Kind, key: Key): Target
    requires key.0 in SourceForVariant
  {
    Target(kind, key.0, key.1, SourceForVariant[key.0])
  }

  /** The task of each key, in order. */
  function TasksFor(kind: Kind, keys: seq<Key>, env: Environment): (tasks: seq<Task>)
    requires kind != Base && KnownVariants(keys)
  {
    seq(|keys|, n requires 0 <= n < |keys| => TaskFor(TargetAt(kind, keys[n]), env))
  }

  /**
   * What a `create_doit_tasks` generator yields over `keys`: one task per
   * key, in order, or the KeyError the first unknown OS variant raises.
   */
  function EmitTasks(kind: Kind, keys: seq<Key>, env: Environment): (r: Result<seq<Task>>)
    requires kind != Base
    ensures r.Ok? <==> KnownVariants(keys)
    ensures r.Ok? ==> |r.value| == |keys|
    ensures r.Err? ==> r.error.KeyError? && r.error.key !in SourceForVariant
  {
    if KnownVariants(keys) then Ok(TasksFor(kind, keys, env))
    else Err(KeyError(keys[FirstUnknown(keys)].0))
  }

  lemma TasksForStep(kind: Kind, keys: seq<Key>, key: Key, env: Environment)
    requires kind != Base && KnownVariants(keys) && key.0 in SourceForVariant
    ensures KnownVariants(keys + [key])
    ensures TasksFor(kind, keys + [key], env) == TasksFor(kind, keys, env) + [TaskFor(TargetAt(kind, key), env)]
  {
    var longer := keys + [key];
    assert KnownVariants(longer) by {
      assert forall n :: 0 <= n < |keys| ==> longer[n] == keys[n];
    }
    var a := TasksFor(kind, longer, env);
    var b := TasksFor(kind, keys, env) + [TaskFor(TargetAt(kind, key), env)];
    forall n | 0 <= n < |a|
      ensures a[n] == b[n]
    {
      if n < |keys| {
        assert longer[n] == keys[n];
      }
    }
  }

  /** The first unknown key of a prefix is the first unknown key of the whole sequence. */
  lemma EmitPrefixErr(kind: Kind, prefix: seq<Key>, keys: seq<Key>, env: Environment)
    requires kind != Base
    requires IsPrefix(prefix, keys) && !KnownVariants(prefix)
    ensures EmitTasks(kind, keys, env) == EmitTasks(kind, prefix, env)
  {
    var p := FirstUnknown(prefix);
    assert keys[p] == prefix[p];
    assert !KnownVariants(keys);
    var q := FirstUnknown(keys);
    assert q < |prefix| ==> keys[q] == prefix[q];
    assert forall m :: 0 <= m < p ==> keys[m] == prefix[m];
  }

  /** A row whose OS variant is unknown fails at its first key, after the keys `done` succeeded. */
  lemma RowUnknownVariant(kind: Kind, done: seq<Key>, osv: string, pythonVersions: seq<string>, j: nat, env: Environment)
    requires kind != Base && j < |pythonVersions| && osv !in SourceForVariant
    requires KnownVariants(done + Row(osv, pythonVersions[..j]))
    ensures EmitTasks(kind, done + Row(osv, pythonVersions), env) == Err(KeyError(osv))
  {
    var keys := done + Row(osv, pythonVersions[..j]);
    var key := (osv, pythonVersions[j]);
    RowStep(osv, pythonVersions, j);
    assert Row(osv, pythonVersions[..j + 1]) == Row(osv, pythonVersions)[..j + 1];
    assert (keys + [key])[|keys|] == key;
    EmitPrefixErr(kind, keys + [key], done + Row(osv, pythonVersions), env);
  }

  /** A row whose OS variant is known grows by one task per Python version. */
  lemma RowKnownStep(kind: Kind, done: seq<Key>, osv: string, pythonVersions: seq<string>, j: nat, env: Environment)
    requires kind != Base && j < |pythonVersions| && osv in SourceForVariant
    requires KnownVariants(done + Row(osv, pythonVersions[..j]))
    ensures KnownVariants(done + Row(osv, pythonVersions[..j + 1]))
    ensures TasksFor(kind, done + Row(osv, pythonVersions[..j + 1]), env) ==
      TasksFor(kind, done + Row(osv, pythonVersions[..j]), env)
      + [TaskFor(TargetAt(kind, (osv, pythonVersions[j])), env)]
  {
    RowStep(osv, pythonVersions, j);
    var keys := done + Row(osv, pythonVersions[..j]);
    assert done + Row(osv, pythonVersions[..j + 1]) == keys + [(osv, pythonVersions[j])];
    TasksForStep(kind, keys, (osv, pythonVersions[j]), env);
  }

  /**
   * The inner loop of the product: the tasks of one OS variant's row,
   * appended to `tasks`, the tasks already yielded for the keys `done`.
   */
  method EmitRow(kind: Kind, osv: string, pythonVersions: seq<string>, env: Environment,
                 ghost done: seq<Key>, tasks: seq<Task>)
    returns (r: Result<seq<Task>>)
    requires kind != Base && KnownVariants(done)
    requires tasks == TasksFor(kind, done, env)
    ensures r == EmitTasks(kind, done + Row(osv, pythonVersions), env)
  {
    var acc := tasks;
    var j := 0;
    assert done + Row(osv, pythonVersions[..0]) == done;
    while j < |pythonVersions|
      invariant 0 <= j <= |pythonVersions|
      invariant KnownVariants(done + Row(osv, pythonVersions[..j]))
      invariant acc == TasksFor(kind, done + Row(osv, pythonVersions[..j]), env)
    {
      var target := MakeTarget(kind, osv, pythonVersions[j]);
      if target.Err? {
        RowUnknownVariant(kind, done, osv, pythonVersions, j, env);
        return Err(target.error);
      }
      RowKnownStep(kind, done, osv, pythonVersions, j, env);
      acc := acc + [TaskFor(target.value, env)];
      j := j + 1;
    }
    assert pythonVersions[..j] == pythonVersions;
    return Ok(acc);
  }

  /** `cls.create_doit_tasks()` for the class of `kind`, over the given axes. */
  method CreateDoitTasks(kind: Kind, osVariants: seq<string>, pythonVersions: seq<string>, env: Environment)
    returns (r: Result<seq<Task>>)
    requires kind != Base
    ensures r == EmitTasks(kind, Product(osVariants, pythonVersions), env)
  {
    var tasks: seq<Task> := [];
    var i := 0;
    while i < |osVariants|
      invariant 0 <= i <= |osVariants|
      invariant KnownVariants(Product(osVariants[..i], pythonVersions))
      invariant tasks == TasksFor(kind, Product(osVariants[..i], pythonVersions), env)
    {
      ProductStep(osVariants, pythonVersions, i);
      var row := EmitRow(kind, osVariants[i], pythonVersions, env, Product(osVariants[..i], pythonVersions), tasks);
      if row.Err? {
        ProductPrefix(osVariants, pythonVersions, i + 1);
        EmitPrefixErr(kind, Product(osVariants[..i + 1], pythonVersions), Product(osVariants, pythonVersions), env);
        return row;
      }
      tasks := row.value;
      i := i + 1;
    }
    assert osVariants[..i] == osVariants;
    return Ok(tasks);
  }

  /** An unknown OS variant makes emission fail unless there is no Python version to pair it with. */
  lemma EmitOverAxes(kind: Kind, osVariants: seq<string>, pythonVersions: seq<string>, env: Environment)
    requires kind != Base
    ensures EmitTasks(kind, Product(osVariants, pythonVersions), env).Ok? <==>
      pythonVersions == [] || forall osv :: osv in osVariants ==> osv in SourceForVariant
  {
    var keys := Product(osVariants, pythonVersions);
    ProductLength(osVariants, pythonVersions);
    ProductMembers(osVariants, pythonVersions);
    if pythonVersions != [] {
      forall i | 0 <= i < |osVariants|
        ensures (osVariants[i], pythonVersions[0]) in keys
      {
        ProductAt(osVariants, pythonVersions, i, 0);
      }
    }
  }

  // ---------------------------------------------------------------------------
  // The declared matrix

  /** Every OS variant of the matrix has an upstream source. */
  lemma MatrixVariantsKnown()
    ensures KnownVariants(Product(OsVariants, PythonVersions))
    ensures |Product(OsVariants, PythonVersions)| == 10
  {
    ProductMembers(OsVariants, PythonVersions);
    ProductLength(OsVariants, PythonVersions);
  }

  /** The tasks a class yields over the declared matrix: emission cannot fail there. */
  function MatrixTasks(kind: Kind, env: Environment): (tasks: seq<Task>)
    requires kind != Base
    ensures EmitTasks(kind, Product(OsVariants, PythonVersions), env) == Ok(tasks)
    ensures |tasks| == 10
  {
    MatrixVariantsKnown();
    TasksFor(kind, Product(OsVariants, PythonVersions), env)
  }

  /** The n-th target of the matrix, for a class. */
  function MatrixTarget(kind: Kind, n: nat): (t: Target)
    requires n < 10
    ensures t.kind == kind
    ensures t.osVariant == (if n < 5 then "jammy" else "slim-jammy")
    ensures t.pythonVersion == PythonVersions[n % 5]
  {
    MatrixKeys();
    TargetAt(kind, Product(OsVariants, PythonVersions)[n])
  }

  lemma MatrixTaskAt(kind: Kind, env: Environment, n: nat)
    requires kind != Base && n < 10
    ensures MatrixTasks(kind, env)[n] == TaskFor(MatrixTarget(kind, n), env)
  {
  }

  /**
   * Across all six classes the sixty matrix tasks have pairwise distinct
   * basenames, as doit requires of task names.
   */
  lemma MatrixBasenamesUnique(k1: Kind, k2: Kind, a: nat, b: nat, env: Environment)
    requires k1 != Base && k2 != Base && a < 10 && b < 10
    ensures MatrixTasks(k1, env)[a].basename == MatrixTasks(k2, env)[b].basename ==> k1 == k2 && a == b
  {
    var keys := Product(OsVariants, PythonVersions);
    MatrixTaskAt(k1, env, a);
    MatrixTaskAt(k2, env, b);
    MatrixKeys();
    MatrixKeysDistinct();
    MatrixAxesHaveNoSlash();
    ProductMembers(OsVariants, PythonVersions);
    BasenameInjective(MatrixTarget(k1, a), MatrixTarget(k2, b));
    assert MatrixTarget(k1, a).osVariant == keys[a].0 && MatrixTarget(k1, a).pythonVersion == keys[a].1;
    assert MatrixTarget(k2, b).osVariant == keys[b].0 && MatrixTarget(k2, b).pythonVersion == keys[b].1;
  }

  /** Within a row of the matrix, only the fourth Python version is the latest one. */
  lemma LatestPosition(n: nat)
    requires n < 10
    ensures PythonVersions[n % 5] == Latest <==> n == 3 || n == 8
  {
    assert PythonVersions[0] != Latest && PythonVersions[1] != Latest && PythonVersions[2] != Latest;
    assert PythonVersions[4] != Latest;
  }

  /**
   * Which matrix tasks write the ":latest" alias: in each of the two image
   * classes, the 3.10 task of either OS variant, so four tasks in all
   * retag the same reference.
   */
  lemma MatrixLatestWriters(kind: Kind, env: Environment, n: nat)
    requires (kind == Dockerimage || kind == S6Dockerimage) && n < 10
    ensures var acts := TaskFor(MatrixTarget(kind, n), env).actions.value;
      && (|acts| == 2 <==> n == 3 || n == 8)
      && (|acts| == 2 ==>
            acts[1] == Command(["docker", "tag", ImageTag(MatrixTarget(kind, n)), ImageRepository + ":latest"]))
  {
    ImageTaskActions(MatrixTarget(kind, n), env);
    LatestPosition(n);
  }

  // ---------------------------------------------------------------------------
  // task_shortcuts

  /**
   * The two aggregate tasks of one key: build everything, and test both
   * images. Neither has actions or file dependencies; the test shortcut is
   * named after the build shortcut.
   */
  function ShortcutPair(key: Key): (pair: seq<Task>)
    ensures |pair| == 2
    ensures pair[0].taskDep.Some? && pair[1].taskDep.Some?
    ensures pair[1].basename == "test-" + pair[0].basename
    ensures |pair[0].taskDep.value| == 4 && |pair[1].taskDep.value| == 2
  {
    var subdir := key.1 + "/" + key.0;
    [Task(subdir, None, None,
          Some([subdir + "/" + "Dockerfile", subdir + "/" + "with-s6.Dockerfile",
                subdir + "/" + "Dockerimage", subdir + "/" + "with-s6.Dockerimage"])),
     Task("test-" + subdir, None, None,
          Some([subdir + "/" + "Dockerimage.test", subdir + "/" + "with-s6.Dockerimage.test"]))]
  }

  /** What `task_shortcuts()` yields over `keys`: two tasks per key, in order. */
  function Shortcuts(keys: seq<Key>): (tasks: seq<Task>)
    ensures |tasks| == 2 * |keys|
    decreases |keys|
  {
    if keys == [] then [] else Shortcuts(keys[..|keys| - 1]) + ShortcutPair(keys[|keys| - 1])
  }

  lemma ShortcutsStep(keys: seq<Key>, key: Key)
    ensures Shortcuts(keys + [key]) == Shortcuts(keys) + ShortcutPair(key)
  {
    assert (keys + [key])[..|keys|] == keys;
  }

  /** `task_shortcuts()` over the given axes. */
  method TaskShortcuts(osVariants: seq<string>, pythonVersions: seq<string>) returns (tasks: seq<Task>)
    ensures tasks == Shortcuts(Product(osVariants, pythonVersions))
  {
    tasks := [];
    ghost var done: seq<Key> := [];
    var i := 0;
    while i < |osVariants|
      invariant 0 <= i <= |osVariants|
      invariant done == Product(osVariants[..i], pythonVersions)
      invariant tasks == Shortcuts(done)
    {
      var j := 0;
      while j < |pythonVersions|
        invariant 0 <= j <= |pythonVersions|
        invariant done == Product(osVariants[..i], pythonVersions) + Row(osVariants[i], pythonVersions[..j])
        invariant tasks == Shortcuts(done)
      {
        var key := (osVariants[i], pythonVersions[j]);
        RowStep(osVariants[i], pythonVersions, j);
        ShortcutsStep(done, key);
        tasks := tasks + ShortcutPair(key);
        done := done + [key];
        j := j + 1;
      }
      ProductStep(osVariants, pythonVersions, i);
      assert pythonVersions[..j] == pythonVersions;
      i := i + 1;
    }
    assert osVariants[..i] == osVariants;
  }

  /** The shortcuts of the n-th key sit at positions 2n and 2n + 1. */
  lemma {:induction false} ShortcutsAt(keys: seq<Key>, n: nat, r: nat)
    requires n < |keys| && r < 2
    ensures |Shortcuts(keys)| == 2 * |keys|
    ensures Shortcuts(keys)[2 * n + r] == ShortcutPair(keys[n])[r]
    decreases |keys|
  {
    var init := keys[..|keys| - 1];
    if n < |init| {
      ShortcutsAt(init, n, r);
    }
  }

  /** The basename of the target of `kind` for `key`. */
  function KeyBasename(kind: Kind, key: Key, baseOs: string): string
    requires kind != Base
  {
    Basename(Target(kind, key.0, key.1, baseOs)).value
  }

  /**
   * A shortcut depends on exactly the basenames of its key's targets: the
   * four build kinds for the build shortcut, the two test kinds for the
   * test shortcut. Shortcuts have no actions of their own.
   */
  lemma ShortcutDepsAreBasenames(key: Key, baseOs: string)
    ensures ShortcutPair(key)[0].actions.None? && ShortcutPair(key)[1].actions.None?
    ensures ShortcutPair(key)[0].taskDep ==
      Some([KeyBasename(Dockerfile, key, baseOs), KeyBasename(S6Dockerfile, key, baseOs),
            KeyBasename(Dockerimage, key, baseOs), KeyBasename(S6Dockerimage, key, baseOs)])
    ensures ShortcutPair(key)[1].taskDep ==
      Some([KeyBasename(DockerimageTest, key, baseOs), KeyBasename(S6DockerimageTest, key, baseOs)])
  {
  }

  lemma MatrixBasenameAt(kind: Kind, env: Environment, n: nat)
    requires kind != Base && n < 10
    ensures |Product(OsVariants, PythonVersions)| == 10 && Product(OsVariants, PythonVersions)[n].0 in SourceForVariant
    ensures MatrixTasks(kind, env)[n].basename ==
      KeyBasename(kind, Product(OsVariants, PythonVersions)[n], SourceForVariant[Product(OsVariants, PythonVersions)[n].0])
  {
    MatrixVariantsKnown();
    MatrixTaskAt(kind, env, n);
  }

  /**
   * Over any keys with known OS variants, the build shortcut of the n-th key
   * depends on the n-th task of each build class and the test shortcut on
   * the n-th task of each test class.
   */
  lemma ShortcutsResolveAt(keys: seq<Key>, n: nat, env: Environment)
    requires KnownVariants(keys) && n < |keys|
    ensures var shortcuts := Shortcuts(keys);
      && |shortcuts| == 2 * |keys|
      && shortcuts[2 * n].taskDep == Some([TasksFor(Dockerfile, keys, env)[n].basename,
                                           TasksFor(S6Dockerfile, keys, env)[n].basename,
                                           TasksFor(Dockerimage, keys, env)[n].basename,
                                           TasksFor(S6Dockerimage, keys, env)[n].basename])
      && shortcuts[2 * n + 1].taskDep == Some([TasksFor(DockerimageTest, keys, env)[n].basename,
                                               TasksFor(S6DockerimageTest, keys, env)[n].basename])
  {
    ShortcutsAt(keys, n, 0);
    ShortcutsAt(keys, n, 1);
    ShortcutDepsAreBasenames(keys[n], SourceForVariant[keys[n].0]);
  }

  /**
   * Every shortcut dependency names a task the matrix emits: the build
   * shortcut of the n-th key depends on the n-th task of each build class,
   * the test shortcut on the n-th task of each test class.
   */
  lemma MatrixShortcutsResolve(env: Environment, n: nat)
    requires n < 10
    ensures var shortcuts := Shortcuts(Product(OsVariants, PythonVersions));
      && |shortcuts| == 20
      && shortcuts[2 * n].taskDep == Some([MatrixTasks(Dockerfile, env)[n].basename,
                                           MatrixTasks(S6Dockerfile, env)[n].basename,
                                           MatrixTasks(Dockerimage, env)[n].basename,
                                           MatrixTasks(S6Dockerimage, env)[n].basename])
      && shortcuts[2 * n + 1].taskDep == Some([MatrixTasks(DockerimageTest, env)[n].basename,
                                               MatrixTasks(S6DockerimageTest, env)[n].basename])
  {
    MatrixVariantsKnown();
    ShortcutsResolveAt(Product(OsVariants, PythonVersions), n, env);
  }

  /** The number of "/" characters in a string. */
  function Slashes(s: string): nat
  {
    if s == [] then 0 else (if s[0] == '/' then 1 else 0) + Slashes(s[1..])
  }

  lemma {:induction false} SlashesConcat(a: string, b: string)
    ensures Slashes(a + b) == Slashes(a) + Slashes(b)
  {
    if a == [] {
      assert a + b == b;
    } else {
      assert (a + b)[1..] == a[1..] + b;
      SlashesConcat(a[1..], b);
    }
  }

  /** Joining two strings with "/" adds exactly one slash. */
  lemma SlashesJoin(a: string, b: string)
    ensures Slashes(a + "/" + b) == Slashes(a) + 1 + Slashes(b)
  {
    assert Slashes("/") == 1;
    SlashesConcat(a, "/");
    SlashesConcat(a + "/", b);
  }

  /** "{}/{}".format(pyv, osv) has one slash when neither part has one. */
  lemma SubdirSlashes(pyv: string, osv: string)
    requires '/' !in pyv && '/' !in osv
    ensures Slashes(pyv + "/" + osv) == 1
  {
    NoSlashes(pyv);
    NoSlashes(osv);
    SlashesJoin(pyv, osv);
  }

  lemma {:induction false} NoSlashes(s: string)
    ensures Slashes(s) == 0 <==> '/' !in s
  {
    if s != [] {
      NoSlashes(s[1..]);
      assert s == [s[0]] + s[1..];
    }
  }

  lemma ShortcutNameSlashes(key: Key)
    requires '/' !in key.0 && '/' !in key.1
    ensures Slashes(ShortcutPair(key)[0].basename) == 1
    ensures Slashes(ShortcutPair(key)[1].basename) == 1
  {
    var subdir := key.1 + "/" + key.0;
    assert ShortcutPair(key)[0].basename == subdir;
    assert ShortcutPair(key)[1].basename == "test-" + subdir;
    SubdirSlashes(key.1, key.0);
    NoSlashes("test-");
    SlashesConcat("test-", subdir);
  }

  lemma BasenameSlashes(t: Target)
    requires '/' !in t.osVariant && '/' !in t.pythonVersion && t.kind != Base
    ensures Slashes(Basename(t).value) == 2
  {
    var suffix := BasenameSuffix(t.kind).value;
    assert Basename(t).value == Subdir(t) + "/" + suffix;
    SubdirSlashes(t.pythonVersion, t.osVariant);
    NoSlashes(suffix);
    SlashesJoin(Subdir(t), suffix);
  }

  /** Shortcut names have one "/" and target basenames two, so no shortcut is named like a target. */
  lemma ShortcutNamesAreNotTargets(key: Key, t: Target)
    requires '/' !in key.0 && '/' !in key.1
    requires '/' !in t.osVariant && '/' !in t.pythonVersion && t.kind != Base
    ensures ShortcutPair(key)[0].basename != Basename(t).value
    ensures ShortcutPair(key)[1].basename != Basename(t).value
  {
    ShortcutNameSlashes(key);
    BasenameSlashes(t);
  }

  /**
   * Shortcut names identify their key and role, when the axis values have no
   * "/" and Python versions do not start with "t" (as "test-" does).
   */
  lemma ShortcutNamesInjective(k1: Key, r1: nat, k2: Key, r2: nat)
    requires r1 < 2 && r2 < 2
    requires '/' !in k1.0 && '/' !in k1.1 && '/' !in k2.0 && '/' !in k2.1
    requires |k1.1| > 0 && k1.1[0] != 't' && |k2.1| > 0 && k2.1[0] != 't'
    ensures ShortcutPair(k1)[r1].basename == ShortcutPair(k2)[r2].basename ==> k1 == k2 && r1 == r2
  {
    var sub1 := k1.1 + "/" + k1.0;
    var sub2 := k2.1 + "/" + k2.0;
    var n1 := ShortcutPair(k1)[r1].basename;
    var n2 := ShortcutPair(k2)[r2].basename;
    assert sub1[0] == k1.1[0] && sub2[0] == k2.1[0];
    if r1 == 0 && r2 == 0 {
      if n1 == n2 {
        SlashSeparated(k1.1, k2.1, k1.0, k2.0);
      }
    } else if r1 == 1 && r2 == 1 {
      assert n1[5..] == sub1 && n2[5..] == sub2;
      if n1 == n2 {
        SlashSeparated(k1.1, k2.1, k1.0, k2.0);
      }
    } else {
      assert n1[0] != n2[0];
    }
  }

  /** Every Python version of the matrix starts with a digit. */
  lemma PythonVersionsStartWithDigit()
    ensures forall pyv :: pyv in PythonVersions ==> |pyv| > 0 && pyv[0] == '3'
  {
  }

  /** Over axes without repeats, slashes or a leading "t", the shortcut names are pairwise distinct. */
  lemma ShortcutNamesUniqueOver(xs: seq<string>, ys: seq<string>, a: nat, r1: nat, b: nat, r2: nat)
    requires Distinct(xs) && Distinct(ys)
    requires forall x :: x in xs ==> '/' !in x
    requires forall y :: y in ys ==> '/' !in y && |y| > 0 && y[0] != 't'
    requires a < |Product(xs, ys)| && b < |Product(xs, ys)| && r1 < 2 && r2 < 2
    ensures var shortcuts := Shortcuts(Product(xs, ys));
      |shortcuts| == 2 * |Product(xs, ys)| &&
      (shortcuts[2 * a + r1].basename == shortcuts[2 * b + r2].basename ==> a == b && r1 == r2)
  {
    var keys := Product(xs, ys);
    var shortcuts := Shortcuts(keys);
    ProductDistinct(xs, ys);
    ProductMembers(xs, ys);
    var k1, k2 := keys[a], keys[b];
    assert k1.0 in xs && k1.1 in ys && k2.0 in xs && k2.1 in ys;
    assert a != b ==> k1 != k2 by {
      if a < b {
        assert keys[a] != keys[b];
      } else if b < a {
        assert keys[b] != keys[a];
      }
    }
    ShortcutNamesInjective(k1, r1, k2, r2);
    ShortcutsAt(keys, a, r1);
    ShortcutsAt(keys, b, r2);
  }

  lemma MatrixAxesDistinct()
    ensures Distinct(OsVariants) && Distinct(PythonVersions)
  {
  }

  /** The twenty shortcut tasks of the matrix have pairwise distinct names. */
  lemma MatrixShortcutNamesUnique(a: nat, r1: nat, b: nat, r2: nat)
    requires a < 10 && b < 10 && r1 < 2 && r2 < 2
    ensures var shortcuts := Shortcuts(Product(OsVariants, PythonVersions));
      |shortcuts| == 20 &&
      (shortcuts[2 * a + r1].basename == shortcuts[2 * b + r2].basename ==> a == b && r1 == r2)
  {
    MatrixAxesDistinct();
    MatrixAxesHaveNoSlash();
    PythonVersionsStartWithDigit();
    ProductLength(OsVariants, PythonVersions);
    ShortcutNamesUniqueOver(OsVariants, PythonVersions, a, r1, b, r2);
  }
}
