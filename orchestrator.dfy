/**
 * The build driver: cbrew_build, cbrew_project_build, cbrew_project_config_compile,
 * cbrew_project_config_file_is_already_compiled and the link, static-library and
 * dynamic-library steps.
 *
 * Every command the driver issues is appended to a log, in order; what the outside
 * answers (exit statuses, the dependency line, listings, the file system) is read from
 * a World at the current log position. The specification is a family of functions
 * that compute, from a start position, the commands issued and the verdict (a Trace);
 * the methods of Shell run the loops of the C code and are proved to produce exactly
 * those commands and verdicts.
 */
module Orchestrator {
  import opened Text
  import opened Paths
  import opened Arguments
  import opened Registry
  import opened Host
  import opened Sources
  import opened Staleness

  /** The fixed inputs of one run: platform, world and argv[0]. */
  datatype Env = Env(pf: Platform, world: World, argv0: string)

  /** The commands issued, in order, and the verdict. */
  datatype Trace = Trace(cmds: seq<Cmd>, ok: bool)

  // ---------------------------------------------------------------------------
  // Command lines.

  /** The format of the compile command: `gcc <includes><flags><defines>-c -o "<obj>" "<file>"`. */
  function CompileFormat(includeDirs: string, projectFlags: string, configFlags: string, projectDefines: string,
                         configDefines: string, obj: string, file: string): string
  {
    Compiler + " " + includeDirs + projectFlags + configFlags + projectDefines + configDefines
      + "-c -o \"" + obj + "\" \"" + file + "\""
  }

  /** The format of the link command: `gcc <includes><flags>-o "<target>" <objs> <links>`. */
  function LinkFormat(includeDirs: string, projectFlags: string, configFlags: string, target: string,
                      objs: string, links: string): string
  {
    Compiler + " " + includeDirs + projectFlags + configFlags + "-o \"" + target + "\" " + objs + " " + links
  }

  /** The format of the archive command: `ar rcs "<target>" <objs>`. */
  function StaticLibFormat(target: string, objs: string): string
  {
    "ar rcs \"" + target + "\" " + objs
  }

  /** The format of the shared-library command: `gcc -shared <flags>-o "<target>" <objs>`. */
  function DynamicLibFormat(projectFlags: string, configFlags: string, target: string, objs: string): string
  {
    Compiler + " -shared " + projectFlags + configFlags + "-o \"" + target + "\" " + objs
  }

  /** The compile command for one source file of a config. */
  function CompileCommand(pf: Platform, p: Project, c: Config, file: string): string
  {
    CompileFormat(IncludeDirsStr(p.includeDirs), FlagsStr(p.flags), FlagsStr(c.flags), DefinesStr(p.defines),
      DefinesStr(c.defines), CompileObjectPath(c.objDir, pf.Sep(), file), file)
  }

  /** The executable is `<target_dir><sep><name>`. */
  function LinkCommand(pf: Platform, p: Project, c: Config, objs: string): string
  {
    LinkFormat(IncludeDirsStr(p.includeDirs), FlagsStr(p.flags), FlagsStr(c.flags),
      c.targetDir + [pf.Sep()] + p.name, objs, LinksStr(p.links, pf.Sep()))
  }

  /** The archive is `<target_dir><sep><lib prefix><name>.<static ext>`. */
  function StaticLibCommand(pf: Platform, p: Project, c: Config, objs: string): string
  {
    StaticLibFormat(c.targetDir + [pf.Sep()] + pf.LibPrefix() + p.name + "." + pf.StaticLibExtension(), objs)
  }

  /** The shared library is `<target_dir><sep><name>.<dynamic ext>`, without the lib prefix. */
  function DynamicLibCommand(pf: Platform, p: Project, c: Config, objs: string): string
  {
    DynamicLibFormat(FlagsStr(p.flags), FlagsStr(c.flags),
      c.targetDir + [pf.Sep()] + p.name + "." + pf.DynamicLibExtension(), objs)
  }

  /** The step after a successful compile, chosen by the project type. */
  function PostCompileCommand(pf: Platform, p: Project, c: Config, objs: string): string
    requires p.kind < TYPE_SIZE
  {
    if p.kind == APP then LinkCommand(pf, p, c, objs)
    else if p.kind == STATIC_LIB then StaticLibCommand(pf, p, c, objs)
    else DynamicLibCommand(pf, p, c, objs)
  }

  /** The object list as read from the object directory's listing at log position k. */
  function ObjsAt(env: Env, k: nat, c: Config): string
  {
    ObjFilesStr(ObjectFiles(env.world.list(k, c.objDir), c.objDir, env.pf))
  }

  // ---------------------------------------------------------------------------
  // The specification: traces from a start position k.

  /** The staleness check of one file: the dependency listing is piped only past the first two checks. */
  function CheckTrace(env: Env, k: nat, p: Project, c: Config, file: string): Trace
  {
    var fs := env.world.files(k);
    if !NeedsDependencyListing(fs, env.pf, env.argv0, c.objDir, file) then Trace([], false)
    else
      var cmd := DependencyCommand(p.includeDirs, file);
      Trace([Pipe(cmd)], IsAlreadyCompiled(fs, env.pf, env.argv0, c.objDir, file, env.world.firstLine(k, cmd)))
  }

  /** One iteration of the compile loop: skip a file already compiled, else compile it. */
  function FileStep(env: Env, k: nat, p: Project, c: Config, file: string): Trace
  {
    var check := CheckTrace(env, k, p, c, file);
    if check.ok then Trace(check.cmds, true)
    else
      var line := CompileCommand(env.pf, p, c, file);
      Trace(check.cmds + [Run(line)], env.world.exitOk(k + |check.cmds|, line))
  }

  /** cbrew_project_config_compile: the files in order, stopping at the first failed compile. */
  function CompileTrace(env: Env, k: nat, p: Project, c: Config, files: seq<string>): Trace
    decreases |files|
  {
    if files == [] then Trace([], true)
    else
      var pre := CompileTrace(env, k, p, c, files[..|files| - 1]);
      if !pre.ok then pre
      else
        var st := FileStep(env, k + |pre.cmds|, p, c, files[|files| - 1]);
        Trace(pre.cmds + st.cmds, st.ok)
  }

  /** The link or archive step. */
  function PostCompileTrace(env: Env, k: nat, p: Project, c: Config): Trace
    requires p.kind < TYPE_SIZE
  {
    var line := PostCompileCommand(env.pf, p, c, ObjsAt(env, k, c));
    Trace([Run(line)], env.world.exitOk(k, line))
  }

  /** One config: compile, and only after a successful compile, link or archive. */
  function ConfigTrace(env: Env, k: nat, p: Project, c: Config, files: seq<string>): Trace
    requires p.kind < TYPE_SIZE
  {
    var compile := CompileTrace(env, k, p, c, files);
    if !compile.ok then compile
    else
      var post := PostCompileTrace(env, k + |compile.cmds|, p, c);
      Trace(compile.cmds + post.cmds, post.ok)
  }

  /** Every config in order, whatever happened to the ones before; the verdict is the conjunction. */
  function ConfigsTrace(env: Env, k: nat, p: Project, configs: seq<Config>, files: seq<string>): Trace
    requires p.kind < TYPE_SIZE
    decreases |configs|
  {
    if configs == [] then Trace([], true)
    else
      var pre := ConfigsTrace(env, k, p, configs[..|configs| - 1], files);
      var st := ConfigTrace(env, k + |pre.cmds|, p, configs[|configs| - 1], files);
      Trace(pre.cmds + st.cmds, pre.ok && st.ok)
  }

  /** The sources of a project, from the recursive listing of "." at position k. */
  function SourcesAt(env: Env, k: nat, p: Project): seq<string>
  {
    SourceFiles(env.world.walk(k), p.wildcards, env.pf)
  }

  /**
   * cbrew_project_build: no configs is a success, then no sources is a success, then an
   * out-of-range type is a failure; otherwise every config is built.
   */
  function ProjectTrace(env: Env, k: nat, p: Project): Trace
  {
    if p.configs == [] then Trace([], true)
    else if SourcesAt(env, k, p) == [] then Trace([], true)
    else if p.kind >= TYPE_SIZE then Trace([], false)
    else ConfigsTrace(env, k, p, p.configs, SourcesAt(env, k, p))
  }

  /** cbrew_build: every project in order; the verdict is the conjunction. */
  function BuildTrace(env: Env, k: nat, projects: seq<Project>): Trace
    decreases |projects|
  {
    if projects == [] then Trace([], true)
    else
      var pre := BuildTrace(env, k, projects[..|projects| - 1]);
      var st := ProjectTrace(env, k + |pre.cmds|, projects[|projects| - 1]);
      Trace(pre.cmds + st.cmds, pre.ok && st.ok)
  }

  /** One more file: the trace of a prefix extended by one step, unless the prefix already failed. */
  lemma CompileTraceNext(env: Env, k: nat, p: Project, c: Config, files: seq<string>, i: nat)
    requires i < |files|
    ensures var pre := CompileTrace(env, k, p, c, files[..i]);
      CompileTrace(env, k, p, c, files[..i + 1]) ==
        if !pre.ok then pre
        else Trace(pre.cmds + FileStep(env, k + |pre.cmds|, p, c, files[i]).cmds,
                   FileStep(env, k + |pre.cmds|, p, c, files[i]).ok)
  {
    hide FileStep;
    assert files[..i + 1][..i] == files[..i];
  }

  /** One more config: its trace is appended and its verdict joins the conjunction. */
  lemma ConfigsTraceNext(env: Env, k: nat, p: Project, configs: seq<Config>, files: seq<string>, i: nat)
    requires p.kind < TYPE_SIZE && i < |configs|
    ensures var pre := ConfigsTrace(env, k, p, configs[..i], files);
      ConfigsTrace(env, k, p, configs[..i + 1], files) ==
        Trace(pre.cmds + ConfigTrace(env, k + |pre.cmds|, p, configs[i], files).cmds,
              pre.ok && ConfigTrace(env, k + |pre.cmds|, p, configs[i], files).ok)
  {
    hide ConfigTrace;
    assert configs[..i + 1][..i] == configs[..i];
  }

  /** One more project: its trace is appended and its verdict joins the conjunction. */
  lemma BuildTraceNext(env: Env, k: nat, projects: seq<Project>, i: nat)
    requires i < |projects|
    ensures var pre := BuildTrace(env, k, projects[..i]);
      BuildTrace(env, k, projects[..i + 1]) ==
        Trace(pre.cmds + ProjectTrace(env, k + |pre.cmds|, projects[i]).cmds,
              pre.ok && ProjectTrace(env, k + |pre.cmds|, projects[i]).ok)
  {
    hide ProjectTrace;
    assert projects[..i + 1][..i] == projects[..i];
  }

  /**
   * Appending to the log is associative. Stated once for commands so that the loops need
   * not rediscover it by extensionality.
   */
  lemma AppendAssoc(a: seq<Cmd>, b: seq<Cmd>, c: seq<Cmd>)
    ensures (a + b) + c == a + (b + c)
  {
  }

  /** A compile trace that failed on a prefix of the files is the trace of all of them. */
  lemma {:induction false} CompileTraceStops(env: Env, k: nat, p: Project, c: Config, files: seq<string>, n: nat)
    requires n <= |files| && !CompileTrace(env, k, p, c, files[..n]).ok
    ensures CompileTrace(env, k, p, c, files) == CompileTrace(env, k, p, c, files[..n])
    decreases |files| - n
  {
    if n < |files| {
      assert files[..n + 1][..n] == files[..n];
      CompileTraceStops(env, k, p, c, files, n + 1);
    } else {
      assert files[..n] == files;
    }
  }

  // ---------------------------------------------------------------------------
  // What the traces mean.

  /** Every command issued through system() exited with status 0 at its log position. */
  predicate AllRunsSucceed(w: World, k: nat, cmds: seq<Cmd>)
  {
    forall j :: 0 <= j < |cmds| && cmds[j].Run? ==> w.exitOk(k + j, cmds[j].line)
  }

  /** The last command issued went through system() and failed. */
  predicate LastRunFailed(w: World, k: nat, cmds: seq<Cmd>)
  {
    cmds != [] && cmds[|cmds| - 1].Run? && !w.exitOk(k + |cmds| - 1, cmds[|cmds| - 1].line)
  }

  /** A command the compile loop issues for one file: its dependency listing or its compile. */
  predicate StepCommand(pf: Platform, p: Project, c: Config, file: string, cmd: Cmd)
  {
    cmd == Pipe(DependencyCommand(p.includeDirs, file)) || cmd == Run(CompileCommand(pf, p, c, file))
  }

  lemma AllRunsAppend(w: World, k: nat, a: seq<Cmd>, b: seq<Cmd>)
    ensures AllRunsSucceed(w, k, a + b) <==> AllRunsSucceed(w, k, a) && AllRunsSucceed(w, k + |a|, b)
  {
    if AllRunsSucceed(w, k, a + b) {
      forall j | 0 <= j < |a| && a[j].Run? ensures w.exitOk(k + j, a[j].line) {
        assert (a + b)[j] == a[j];
      }
      forall j | 0 <= j < |b| && b[j].Run? ensures w.exitOk(k + |a| + j, b[j].line) {
        assert (a + b)[|a| + j] == b[j];
      }
    }
  }

  lemma LastRunAppend(w: World, k: nat, a: seq<Cmd>, b: seq<Cmd>)
    requires LastRunFailed(w, k + |a|, b)
    ensures LastRunFailed(w, k, a + b)
  {
    assert (a + b)[|a + b| - 1] == b[|b| - 1];
  }

  /**
   * One file: at most a dependency listing and a compile, the compile last; the step
   * fails exactly when its compile was issued and failed.
   */
  lemma FileStepMeaning(env: Env, k: nat, p: Project, c: Config, file: string)
    ensures var st := FileStep(env, k, p, c, file);
      && 1 <= |st.cmds| <= 2
      && (forall j :: 0 <= j < |st.cmds| ==> StepCommand(env.pf, p, c, file, st.cmds[j]))
      && (forall j :: 0 <= j < |st.cmds| - 1 ==> st.cmds[j].Pipe?)
      && (st.ok <==> AllRunsSucceed(env.world, k, st.cmds))
      && (!st.ok ==> LastRunFailed(env.world, k, st.cmds))
  {
    hide NeedsDependencyListing, IsAlreadyCompiled, DependencyCommand, CompileCommand;
    var check := CheckTrace(env, k, p, c, file);
    if !check.ok {
      var cmds := FileStep(env, k, p, c, file).cmds;
      assert cmds == check.cmds + [Run(CompileCommand(env.pf, p, c, file))];
      assert cmds[|check.cmds|] == Run(CompileCommand(env.pf, p, c, file));
    }
  }

  /** cbrew_project_config_compile succeeds exactly when every compile it issued succeeded. */
  lemma {:induction false} CompileOkIff(env: Env, k: nat, p: Project, c: Config, files: seq<string>)
    ensures var t := CompileTrace(env, k, p, c, files);
      t.ok <==> AllRunsSucceed(env.world, k, t.cmds)
    decreases |files|
  {
    hide FileStep, StepCommand, CheckTrace, CompileCommand, DependencyCommand;
    if files != [] {
      hide AllRunsSucceed;
      var init := files[..|files| - 1];
      CompileOkIff(env, k, p, c, init);
      var pre := CompileTrace(env, k, p, c, init);
      if pre.ok {
        var st := FileStep(env, k + |pre.cmds|, p, c, files[|files| - 1]);
        FileStepMeaning(env, k + |pre.cmds|, p, c, files[|files| - 1]);
        AllRunsAppend(env.world, k, pre.cmds, st.cmds);
      }
    }
  }

  /** cbrew_project_config_compile fails fast: after a failed compile nothing more is issued. */
  lemma {:induction false} CompileFailFast(env: Env, k: nat, p: Project, c: Config, files: seq<string>)
    requires !CompileTrace(env, k, p, c, files).ok
    ensures LastRunFailed(env.world, k, CompileTrace(env, k, p, c, files).cmds)
    decreases |files|
  {
    hide FileStep, LastRunFailed, StepCommand, CheckTrace, CompileCommand, DependencyCommand;
    var init := files[..|files| - 1];
    var pre := CompileTrace(env, k, p, c, init);
    if !pre.ok {
      CompileFailFast(env, k, p, c, init);
    } else {
      var st := FileStep(env, k + |pre.cmds|, p, c, files[|files| - 1]);
      FileStepMeaning(env, k + |pre.cmds|, p, c, files[|files| - 1]);
      LastRunAppend(env.world, k, pre.cmds, st.cmds);
    }
  }

  /** Every command of the compile loop belongs to one of its files, and each file issues at most two. */
  lemma {:induction false} CompileTraceShape(env: Env, k: nat, p: Project, c: Config, files: seq<string>)
    ensures var t := CompileTrace(env, k, p, c, files);
      && |t.cmds| <= 2 * |files|
      && forall j :: 0 <= j < |t.cmds| ==> exists f :: f in files && StepCommand(env.pf, p, c, f, t.cmds[j])
    decreases |files|
  {
    hide FileStep, StepCommand, CheckTrace, CompileCommand, DependencyCommand;
    if files != [] {
      var init := files[..|files| - 1];
      var last := files[|files| - 1];
      CompileTraceShape(env, k, p, c, init);
      var pre := CompileTrace(env, k, p, c, init);
      if pre.ok {
        var st := FileStep(env, k + |pre.cmds|, p, c, last);
        FileStepMeaning(env, k + |pre.cmds|, p, c, last);
        var t := CompileTrace(env, k, p, c, files);
        forall j | 0 <= j < |t.cmds| ensures exists f :: f in files && StepCommand(env.pf, p, c, f, t.cmds[j]) {
          if j < |pre.cmds| {
            assert t.cmds[j] == pre.cmds[j];
            var f :| f in init && StepCommand(env.pf, p, c, f, pre.cmds[j]);
            assert f in files;
          } else {
            assert t.cmds[j] == st.cmds[j - |pre.cmds|];
            assert last in files;
          }
        }
      } else {
        forall f | f in init ensures f in files {
        }
      }
    }
  }

  /** The compile commands of the files, in order. */
  function CompileRuns(pf: Platform, p: Project, c: Config, files: seq<string>): (cmds: seq<Cmd>)
    ensures |cmds| == |files|
  {
    seq(|files|, i requires 0 <= i < |files| => Run(CompileCommand(pf, p, c, files[i])))
  }

  /** The dependency listings of the files, in order. */
  function DependencyListings(p: Project, files: seq<string>): (cmds: seq<Cmd>)
    ensures |cmds| == |files|
  {
    seq(|files|, i requires 0 <= i < |files| => Pipe(DependencyCommand(p.includeDirs, files[i])))
  }

  /**
   * A clean build: when no source has an object file at the moment it is checked and
   * every compile succeeds, every source is compiled, in listing order, and no
   * dependency listing is requested. File i is checked at position k + i, since each
   * file before it issued exactly its compile.
   */
  lemma {:induction false} CleanBuildCompilesAll(env: Env, k: nat, p: Project, c: Config, files: seq<string>)
    requires forall i :: 0 <= i < |files| ==> ObjectPath(env.pf, c.objDir, files[i]) !in env.world.files(k + i)
    requires forall i :: 0 <= i < |files| ==> env.world.exitOk(k + i, CompileCommand(env.pf, p, c, files[i]))
    ensures CompileTrace(env, k, p, c, files) == Trace(CompileRuns(env.pf, p, c, files), true)
    decreases |files|
  {
    hide FileStep, CompileCommand, ObjectPath;
    if files != [] {
      var init := files[..|files| - 1];
      var last := files[|files| - 1];
      assert forall i :: 0 <= i < |init| ==> init[i] == files[i];
      CleanBuildCompilesAll(env, k, p, c, init);
      MissingObjectCompiled(env, k + |init|, p, c, last);
      assert CompileRuns(env.pf, p, c, files) == CompileRuns(env.pf, p, c, init) + [Run(CompileCommand(env.pf, p, c, last))];
    }
  }

  /** A file whose object is missing is compiled without a dependency listing. */
  lemma MissingObjectCompiled(env: Env, j: nat, p: Project, c: Config, f: string)
    requires ObjectPath(env.pf, c.objDir, f) !in env.world.files(j)
    ensures FileStep(env, j, p, c, f) ==
      Trace([Run(CompileCommand(env.pf, p, c, f))], env.world.exitOk(j, CompileCommand(env.pf, p, c, f)))
  {
    hide CompileCommand, DependencyCommand, IsAlreadyCompiled, ObjectPath;
  }

  /** A file found up to date at its check is skipped after its dependency listing. */
  lemma UpToDateSkipped(env: Env, j: nat, p: Project, c: Config, f: string)
    requires UpToDateAt(env, j, p, c, f)
    ensures FileStep(env, j, p, c, f) == Trace([Pipe(DependencyCommand(p.includeDirs, f))], true)
  {
    hide CompileCommand, DependencyCommand, ObjectPath, FirstFileIsOlder, NewerDependency, DependencyPaths;
  }

  /** Sources with one basename (holding a '.') are checked against, and compiled to, one object file. */
  lemma SameBasenameSameObject(pf: Platform, objDir: string, f1: string, f2: string)
    requires Basename(f1, pf.Sep()) == Basename(f2, pf.Sep()) && '.' in Basename(f1, pf.Sep())
    ensures ObjectPath(pf, objDir, f2) == ObjectPath(pf, objDir, f1) == CompileObjectPath(objDir, pf.Sep(), f1)
  {
    ObjectPathsAgree(objDir, pf.Sep(), f1);
  }

  /**
   * Two sources with one basename share an object file. In a clean build the first is
   * compiled and its compile writes that object; the second is then judged by the fresh
   * object, found up to date, and never compiled.
   */
  lemma SharedObjectSkipsSecond(env: Env, k: nat, p: Project, c: Config, f1: string, f2: string, t: int)
    requires Basename(f1, env.pf.Sep()) == Basename(f2, env.pf.Sep()) && '.' in Basename(f1, env.pf.Sep())
    requires Path(ObjectPath(env.pf, c.objDir, f1), env.pf.Sep()) == ObjectPath(env.pf, c.objDir, f1)
    requires ObjectPath(env.pf, c.objDir, f1) !in env.world.files(k)
    requires env.world.exitOk(k, CompileCommand(env.pf, p, c, f1))
    requires forall q :: q in env.world.files(k) ==> env.world.files(k)[q].mtime <= t
    requires env.world.files(k + 1) == env.world.files(k)[CompileObjectPath(c.objDir, env.pf.Sep(), f1) := FileInfo(false, t)]
    requires env.world.firstLine(k + 1, DependencyCommand(p.includeDirs, f2)).Some?
    ensures CompileTrace(env, k, p, c, [f1, f2]) ==
      Trace([Run(CompileCommand(env.pf, p, c, f1)), Pipe(DependencyCommand(p.includeDirs, f2))], true)
  {
    hide FileStep, CompileCommand, DependencyCommand, IsAlreadyCompiled, ObjectPath, CompileObjectPath,
      StalenessObjectPath, Basename, Path, WithObjectExtension, LastIndexOf;
    SameBasenameSameObject(env.pf, c.objDir, f1, f2);
    var line := env.world.firstLine(k + 1, DependencyCommand(p.includeDirs, f2)).value;
    FreshObjectIsUpToDate(env.world.files(k), env.pf, env.argv0, c.objDir, f2, line, t);
    assert UpToDateAt(env, k + 1, p, c, f2);
    MissingObjectCompiled(env, k, p, c, f1);
    UpToDateSkipped(env, k + 1, p, c, f2);
    assert [f1, f2][..1] == [f1] && [f1][..0] == [];
    assert CompileTrace(env, k, p, c, [f1]) == Trace([Run(CompileCommand(env.pf, p, c, f1))], true);
  }

  /** The staleness verdict at log position j, with the listing line the world prints there. */
  predicate UpToDateAt(env: Env, j: nat, p: Project, c: Config, file: string)
  {
    IsAlreadyCompiled(env.world.files(j), env.pf, env.argv0, c.objDir, file,
      env.world.firstLine(j, DependencyCommand(p.includeDirs, file)))
  }

  /**
   * A no-op rebuild: when every source stays up to date, only the dependency listings
   * are issued, one per source in order, nothing is compiled, and the verdict is success.
   */
  lemma {:induction false} UpToDateCompilesNothing(env: Env, k: nat, p: Project, c: Config, files: seq<string>)
    requires forall j: nat, f :: f in files ==> UpToDateAt(env, j, p, c, f)
    ensures CompileTrace(env, k, p, c, files) == Trace(DependencyListings(p, files), true)
    decreases |files|
  {
    hide DependencyCommand, CompileCommand, ObjectPath, FirstFileIsOlder, NewerDependency, DependencyPaths,
      ExecutableFilepath, FileExists;
    if files != [] {
      var init := files[..|files| - 1];
      var last := files[|files| - 1];
      UpToDateCompilesNothing(env, k, p, c, init);
      assert UpToDateAt(env, k + |files| - 1, p, c, last);
      assert DependencyListings(p, files) == DependencyListings(p, init) + [Pipe(DependencyCommand(p.includeDirs, last))];
    }
  }

  /** One config fails exactly when one of its commands failed, and then that command was its last. */
  lemma ConfigOkIff(env: Env, k: nat, p: Project, c: Config, files: seq<string>)
    requires p.kind < TYPE_SIZE
    ensures var t := ConfigTrace(env, k, p, c, files);
      && (t.ok <==> AllRunsSucceed(env.world, k, t.cmds))
      && (!t.ok ==> LastRunFailed(env.world, k, t.cmds))
  {
    hide CompileTrace, PostCompileCommand;
    var compile := CompileTrace(env, k, p, c, files);
    CompileOkIff(env, k, p, c, files);
    if !compile.ok {
      CompileFailFast(env, k, p, c, files);
    } else {
      var post := PostCompileTrace(env, k + |compile.cmds|, p, c);
      AllRunsAppend(env.world, k, compile.cmds, post.cmds);
      if !post.ok {
        LastRunAppend(env.world, k, compile.cmds, post.cmds);
      }
    }
  }

  /** A successful config ends with its link or archive step, over the objects listed at that point. */
  lemma ConfigEndsWithPostStep(env: Env, k: nat, p: Project, c: Config, files: seq<string>)
    requires p.kind < TYPE_SIZE && ConfigTrace(env, k, p, c, files).ok
    ensures var t := ConfigTrace(env, k, p, c, files);
      t.cmds != [] && t.cmds[|t.cmds| - 1] == Run(PostCompileCommand(env.pf, p, c, ObjsAt(env, k + |t.cmds| - 1, c)))
  {
    hide CompileTrace, PostCompileCommand, ObjsAt;
  }

  /**
   * Configs are built independently: the trace of a + b is the trace of a followed by
   * the trace of b from where a stopped, whatever the verdict of a.
   */
  lemma {:induction false} ConfigsTraceAppend(env: Env, k: nat, p: Project, a: seq<Config>, b: seq<Config>,
                                              files: seq<string>)
    requires p.kind < TYPE_SIZE
    ensures var ta := ConfigsTrace(env, k, p, a, files);
      var tb := ConfigsTrace(env, k + |ta.cmds|, p, b, files);
      ConfigsTrace(env, k, p, a + b, files) == Trace(ta.cmds + tb.cmds, ta.ok && tb.ok)
    decreases |b|
  {
    hide ConfigTrace;
    var ta := ConfigsTrace(env, k, p, a, files);
    if b == [] {
      assert a + b == a;
    } else {
      var b' := b[..|b| - 1];
      ConfigsTraceAppend(env, k, p, a, b', files);
      assert (a + b)[..|a + b| - 1] == a + b';
      var tb' := ConfigsTrace(env, k + |ta.cmds|, p, b', files);
      AppendAssoc(ta.cmds, tb'.cmds, ConfigTrace(env, k + |ta.cmds| + |tb'.cmds|, p, b[|b| - 1], files).cmds);
    }
  }

  /** The configs of a project succeed together exactly when every command they ran succeeded. */
  lemma {:induction false} ConfigsOkIff(env: Env, k: nat, p: Project, configs: seq<Config>, files: seq<string>)
    requires p.kind < TYPE_SIZE
    ensures var t := ConfigsTrace(env, k, p, configs, files);
      t.ok <==> AllRunsSucceed(env.world, k, t.cmds)
    decreases |configs|
  {
    hide ConfigTrace;
    if configs != [] {
      var init := configs[..|configs| - 1];
      ConfigsOkIff(env, k, p, init, files);
      var pre := ConfigsTrace(env, k, p, init, files);
      ConfigOkIff(env, k + |pre.cmds|, p, configs[|configs| - 1], files);
      AllRunsAppend(env.world, k, pre.cmds, ConfigTrace(env, k + |pre.cmds|, p, configs[|configs| - 1], files).cmds);
    }
  }

  /**
   * cbrew_project_build succeeds exactly when every command it ran succeeded and its
   * type is in range, unless it has no configs or its wildcards select no source.
   */
  lemma ProjectOkIff(env: Env, k: nat, p: Project)
    ensures var t := ProjectTrace(env, k, p);
      t.ok <==> AllRunsSucceed(env.world, k, t.cmds) && (p.kind < TYPE_SIZE || p.configs == [] || SourcesAt(env, k, p) == [])
  {
    hide ConfigsTrace, SourcesAt;
    if p.configs != [] && SourcesAt(env, k, p) != [] && p.kind < TYPE_SIZE {
      ConfigsOkIff(env, k, p, p.configs, SourcesAt(env, k, p));
    }
  }

  /** Projects are built independently, like configs: the trace of a + b is that of a then that of b. */
  lemma {:induction false} BuildTraceAppend(env: Env, k: nat, a: seq<Project>, b: seq<Project>)
    ensures var ta := BuildTrace(env, k, a);
      var tb := BuildTrace(env, k + |ta.cmds|, b);
      BuildTrace(env, k, a + b) == Trace(ta.cmds + tb.cmds, ta.ok && tb.ok)
    decreases |b|
  {
    hide ProjectTrace;
    var ta := BuildTrace(env, k, a);
    if b == [] {
      assert a + b == a;
    } else {
      var b' := b[..|b| - 1];
      BuildTraceAppend(env, k, a, b');
      assert (a + b)[..|a + b| - 1] == a + b';
      var tb' := BuildTrace(env, k + |ta.cmds|, b');
      AppendAssoc(ta.cmds, tb'.cmds, ProjectTrace(env, k + |ta.cmds| + |tb'.cmds|, b[|b| - 1]).cmds);
    }
  }

  /** With every project type in range, the whole build succeeds exactly when every command it ran succeeded. */
  lemma {:induction false} BuildOkIff(env: Env, k: nat, projects: seq<Project>)
    requires forall i :: 0 <= i < |projects| ==> projects[i].kind < TYPE_SIZE
    ensures var t := BuildTrace(env, k, projects);
      t.ok <==> AllRunsSucceed(env.world, k, t.cmds)
    decreases |projects|
  {
    hide ProjectTrace;
    if projects != [] {
      var init := projects[..|projects| - 1];
      BuildOkIff(env, k, init);
      var pre := BuildTrace(env, k, init);
      ProjectOkIff(env, k + |pre.cmds|, projects[|projects| - 1]);
      AllRunsAppend(env.world, k, pre.cmds, ProjectTrace(env, k + |pre.cmds|, projects[|projects| - 1]).cmds);
    }
  }

  // ---------------------------------------------------------------------------
  // The driver.

  /** The process side of the driver: the log of issued commands. */
  class Shell {
    const env: Env
    var log: seq<Cmd>

    constructor(env: Env)
      ensures this.env == env && log == []
    {
      this.env := env;
      log := [];
    }

    /** cbrew_command: system() on the line; success is a zero exit status. */
    method System(line: string) returns (ok: bool)
      modifies this
      ensures log == old(log) + [Run(line)]
      ensures ok == env.world.exitOk(|old(log)|, line)
    {
      ok := env.world.exitOk(|log|, line);
      log := log + [Run(line)];
    }

    /** popen then fgets: the first line printed, if any. */
    method Popen(line: string) returns (first: Option<string>)
      modifies this
      ensures log == old(log) + [Pipe(line)]
      ensures first == env.world.firstLine(|old(log)|, line)
    {
      first := env.world.firstLine(|log|, line);
      log := log + [Pipe(line)];
    }

    /** cbrew_project_config_file_is_already_compiled */
    method FileIsAlreadyCompiled(p: Project, c: Config, file: string) returns (compiled: bool)
      modifies this
      ensures log == old(log) + CheckTrace(env, |old(log)|, p, c, file).cmds
      ensures compiled == CheckTrace(env, |old(log)|, p, c, file).ok
    {
      var pf := env.pf;
      var sep := pf.Sep();
      var fs := env.world.files(|log|);
      var obj := WithObjectExtension(c.objDir + [sep] + Basename(file, sep));
      if !FileExists(fs, obj, pf) {
        return false;
      }
      var executable := ExecutableFilepath(pf, env.argv0);
      if FirstFileIsOlder(fs, obj, executable, sep) {
        return false;
      }
      var includeDirs := CreateIncludeDirsStr(p.includeDirs);
      var command := Compiler + " " + includeDirs + "-MM " + file;
      var line := Popen(command);
      if line.None? {
        return false;
      }
      compiled := DependenciesUpToDate(fs, obj, line.value, sep);
    }

    /** One iteration of the compile loop of cbrew_project_config_compile. */
    method CompileFile(p: Project, c: Config, file: string, includeDirs: string, projectFlags: string,
                       configFlags: string, projectDefines: string, configDefines: string) returns (ok: bool)
      requires includeDirs == IncludeDirsStr(p.includeDirs)
      requires projectFlags == FlagsStr(p.flags) && configFlags == FlagsStr(c.flags)
      requires projectDefines == DefinesStr(p.defines) && configDefines == DefinesStr(c.defines)
      modifies this
      ensures log == old(log) + FileStep(env, |old(log)|, p, c, file).cmds
      ensures ok == FileStep(env, |old(log)|, p, c, file).ok
    {
      // The staleness check and the argument strings are only passed through here.
      hide CheckTrace, CompileObjectPath, IncludeDirsStr, FlagsStr, DefinesStr;
      ghost var k := |log|;
      var compiled := FileIsAlreadyCompiled(p, c, file);
      if compiled {
        return true;
      }
      var obj := CompileObjectPath(c.objDir, env.pf.Sep(), file);
      ok := System(CompileFormat(includeDirs, projectFlags, configFlags, projectDefines, configDefines, obj, file));
    }

    /** cbrew_project_config_compile */
    method ConfigCompile(p: Project, c: Config, files: seq<string>) returns (result: bool)
      modifies this
      ensures log == old(log) + CompileTrace(env, |old(log)|, p, c, files).cmds
      ensures result == CompileTrace(env, |old(log)|, p, c, files).ok
    {
      hide FileStep, IncludeDirsStr, FlagsStr, DefinesStr;
      ghost var k := |log|;
      assert CompileTrace(env, k, p, c, files[..0]) == Trace([], true);
      // From here on each file is one step of CompileTraceNext.
      hide CompileTrace;
      var projectFlags := CreateFlagsStr(p.flags);
      var projectDefines := CreateDefinesStr(p.defines);
      var includeDirs := CreateIncludeDirsStr(p.includeDirs);
      var configFlags := CreateFlagsStr(c.flags);
      var configDefines := CreateDefinesStr(c.defines);
      result := true;
      var i := 0;
      while i < |files|
        invariant i <= |files|
        invariant log == old(log) + CompileTrace(env, k, p, c, files[..i]).cmds
        invariant result && CompileTrace(env, k, p, c, files[..i]).ok
      {
        ghost var pre := CompileTrace(env, k, p, c, files[..i]);
        ghost var k1 := |log|;
        CompileTraceNext(env, k, p, c, files, i);
        result := CompileFile(p, c, files[i], includeDirs, projectFlags, configFlags, projectDefines, configDefines);
        AppendAssoc(old(log), pre.cmds, FileStep(env, k1, p, c, files[i]).cmds);
        if !result {
          CompileTraceStops(env, k, p, c, files, i + 1);
          return;
        }
        i := i + 1;
      }
      assert files[..i] == files;
    }

    /** cbrew_config_create_obj_files_str on the object directory's current listing. */
    method ObjFiles(c: Config) returns (objs: string)
      ensures objs == ObjsAt(env, |log|, c)
    {
      objs := CreateObjFilesStr(env.world.list(|log|, c.objDir), c.objDir, env.pf);
    }

    /** cbrew_project_config_link */
    method Link(p: Project, c: Config) returns (result: bool)
      modifies this
      ensures log == old(log) + [Run(LinkCommand(env.pf, p, c, ObjsAt(env, |old(log)|, c)))]
      ensures result == env.world.exitOk(|old(log)|, LinkCommand(env.pf, p, c, ObjsAt(env, |old(log)|, c)))
    {
      var objs := ObjFiles(c);
      var includeDirs := CreateIncludeDirsStr(p.includeDirs);
      var projectFlags := CreateFlagsStr(p.flags);
      var projectLinks := CreateLinksStr(p.links, env.pf.Sep());
      var configFlags := CreateFlagsStr(c.flags);
      result := System(LinkFormat(includeDirs, projectFlags, configFlags, c.targetDir + [env.pf.Sep()] + p.name,
        objs, projectLinks));
    }

    /** cbrew_project_config_compile_static_lib */
    method StaticLib(p: Project, c: Config) returns (result: bool)
      modifies this
      ensures log == old(log) + [Run(StaticLibCommand(env.pf, p, c, ObjsAt(env, |old(log)|, c)))]
      ensures result == env.world.exitOk(|old(log)|, StaticLibCommand(env.pf, p, c, ObjsAt(env, |old(log)|, c)))
    {
      var objs := ObjFiles(c);
      var pf := env.pf;
      result := System(StaticLibFormat(c.targetDir + [pf.Sep()] + pf.LibPrefix() + p.name + "."
        + pf.StaticLibExtension(), objs));
    }

    /** cbrew_project_config_compile_dynamic_lib */
    method DynamicLib(p: Project, c: Config) returns (result: bool)
      modifies this
      ensures log == old(log) + [Run(DynamicLibCommand(env.pf, p, c, ObjsAt(env, |old(log)|, c)))]
      ensures result == env.world.exitOk(|old(log)|, DynamicLibCommand(env.pf, p, c, ObjsAt(env, |old(log)|, c)))
    {
      var objs := ObjFiles(c);
      var projectFlags := CreateFlagsStr(p.flags);
      var configFlags := CreateFlagsStr(c.flags);
      var pf := env.pf;
      result := System(DynamicLibFormat(projectFlags, configFlags,
        c.targetDir + [pf.Sep()] + p.name + "." + pf.DynamicLibExtension(), objs));
    }

    /** One pass of the configs loop of cbrew_project_build. */
    method BuildConfig(p: Project, c: Config, files: seq<string>) returns (success: bool)
      requires p.kind < TYPE_SIZE
      modifies this
      ensures log == old(log) + ConfigTrace(env, |old(log)|, p, c, files).cmds
      ensures success == ConfigTrace(env, |old(log)|, p, c, files).ok
    {
      hide CompileTrace, LinkCommand, StaticLibCommand, DynamicLibCommand, ObjsAt;
      success := ConfigCompile(p, c, files);
      if success {
        if p.kind == APP {
          success := Link(p, c);
        } else if p.kind == STATIC_LIB {
          success := StaticLib(p, c);
        } else {
          success := DynamicLib(p, c);
        }
      }
    }

    /** cbrew_project_build */
    method ProjectBuild(p: Project) returns (success: bool)
      modifies this
      ensures log == old(log) + ProjectTrace(env, |old(log)|, p).cmds
      ensures success == ProjectTrace(env, |old(log)|, p).ok
    {
      ghost var k := |log|;
      hide SourceFiles, ConfigTrace;
      if |p.configs| == 0 {
        return true;
      }
      var files := FindSourceFiles(env.world.walk(|log|), p.wildcards, env.pf);
      if |files| == 0 {
        return true;
      }
      if p.kind >= TYPE_SIZE {
        return false;
      }
      assert ConfigsTrace(env, k, p, p.configs[..0], files) == Trace([], true);
      hide ConfigsTrace;
      success := true;
      for i := 0 to |p.configs|
        invariant log == old(log) + ConfigsTrace(env, k, p, p.configs[..i], files).cmds
        invariant success == ConfigsTrace(env, k, p, p.configs[..i], files).ok
      {
        ghost var pre := ConfigsTrace(env, k, p, p.configs[..i], files);
        ghost var k1 := |log|;
        ConfigsTraceNext(env, k, p, p.configs, files, i);
        var configSuccess := BuildConfig(p, p.configs[i], files);
        AppendAssoc(old(log), pre.cmds, ConfigTrace(env, k1, p, p.configs[i], files).cmds);
        if !configSuccess {
          success := false;
        }
      }
      assert p.configs[..|p.configs|] == p.configs;
    }

    /** cbrew_build: the verdict is only logged by the C code; here it is returned. */
    method Build(projects: seq<Project>) returns (success: bool)
      modifies this
      ensures log == old(log) + BuildTrace(env, |old(log)|, projects).cmds
      ensures success == BuildTrace(env, |old(log)|, projects).ok
    {
      hide ProjectTrace;
      ghost var k := |log|;
      assert BuildTrace(env, k, projects[..0]) == Trace([], true);
      hide BuildTrace;
      success := true;
      for i := 0 to |projects|
        invariant log == old(log) + BuildTrace(env, k, projects[..i]).cmds
        invariant success == BuildTrace(env, k, projects[..i]).ok
      {
        ghost var pre := BuildTrace(env, k, projects[..i]);
        ghost var k1 := |log|;
        BuildTraceNext(env, k, projects, i);
        var projectSuccess := ProjectBuild(projects[i]);
        AppendAssoc(old(log), pre.cmds, ProjectTrace(env, k1, projects[i]).cmds);
        if !projectSuccess {
          success := false;
        }
      }
      assert projects[..|projects|] == projects;
    }
  }
}
