/**
 * CBREW_AUTO_REBUILD: the build script rebuilds itself when its source is newer than
 * the running executable. The steps are: check, move the executable aside to
 * cbrew/cbrew.old, compile cbrew/cbrew.c, then either move it back (compile failed) or
 * delete the old copy and relaunch. What the host does at each step (whether a rename or
 * delete is allowed, the exit status of the compiler and of the relaunched program, the
 * time the compiler writes its output) is an input.
 */
module Bootstrap {
  import opened Text
  import opened Paths
  import opened Host

  /** CBREW_SOURCE_FILE: `cbrew<sep>cbrew.c`. */
  function SourceFile(pf: Platform): string
  {
    "cbrew" + [pf.Sep()] + "cbrew.c"
  }

  /** CBREW_OLD_NAME: `cbrew<sep>cbrew.old`. */
  function OldName(pf: Platform): string
  {
    "cbrew" + [pf.Sep()] + "cbrew.old"
  }

  /** The rebuild command: `gcc -Wall -Wextra -O3 -o cbrew<sep>cbrew cbrew<sep>cbrew.c`. */
  function RebuildCommand(pf: Platform): string
  {
    Compiler + " -Wall -Wextra -O3 -o cbrew" + [pf.Sep()] + "cbrew " + SourceFile(pf)
  }

  /** The file the compiler writes for `-o cbrew<sep>cbrew` (gcc adds ".exe" on Windows). */
  function NewExecutable(pf: Platform): string
  {
    ExecutableFilepath(pf, "cbrew" + [pf.Sep()] + "cbrew")
  }

  /** How the macro ends: falling through to the rest of the program, or exit(). */
  datatype Exit = Continue | ExitFailure | ExitSuccess

  /** The host's answers to the steps of one run of the macro. */
  datatype Oracle = Oracle(renameOk: bool, compileOk: bool, buildTime: int, restoreOk: bool, deleteOk: bool,
                           relaunchOk: bool)

  /** The file system afterwards, the commands issued through system(), and the ending. */
  datatype Outcome = Outcome(fs: FileSystem, cmds: seq<Cmd>, exit: Exit)

  /** The guard: the source exists and the executable is strictly older than it. */
  predicate Stale(pf: Platform, argv0: string, fs: FileSystem)
  {
    FileExists(fs, SourceFile(pf), pf) && FirstFileIsOlder(fs, ExecutableFilepath(pf, argv0), SourceFile(pf), pf.Sep())
  }

  /** A successful compile leaves the new executable, written at the oracle's time. */
  function Compiled(pf: Platform, fs: FileSystem, o: Oracle): FileSystem
  {
    fs[Path(NewExecutable(pf), pf.Sep()) := FileInfo(false, o.buildTime)]
  }

  /** cbrew_self_destruct: a failed delete leaves the file system as it was. */
  function AfterDelete(pf: Platform, fs: FileSystem, o: Oracle): FileSystem
  {
    match Delete(fs, OldName(pf), o.deleteOk)
    case None => fs
    case Some(fs') => fs'
  }

  /** The macro, step by step. */
  function AutoRebuild(pf: Platform, argv0: string, fs: FileSystem, o: Oracle): Outcome
  {
    var sep := pf.Sep();
    var exe := ExecutableFilepath(pf, argv0);
    if !Stale(pf, argv0, fs) then Outcome(fs, [], Continue)
    else match Rename(fs, exe, OldName(pf), sep, o.renameOk)
      case None => Outcome(fs, [], ExitFailure)
      case Some(moved) =>
        if !o.compileOk then
          var restored := Rename(moved, OldName(pf), exe, sep, o.restoreOk);
          Outcome(if restored.Some? then restored.value else moved, [Run(RebuildCommand(pf))], ExitFailure)
        else
          var fs' := AfterDelete(pf, Compiled(pf, moved, o), o);
          Outcome(fs', [Run(RebuildCommand(pf)), Run(exe)], if o.relaunchOk then ExitSuccess else ExitFailure)
  }

  /** The process running the macro: its file system and the commands it has issued. */
  class Launcher {
    const pf: Platform
    const oracle: Oracle
    var fs: FileSystem
    var log: seq<Cmd>
    var exit: Exit

    constructor(pf: Platform, oracle: Oracle, fs: FileSystem)
      ensures this.pf == pf && this.oracle == oracle && this.fs == fs && log == [] && exit == Continue
    {
      this.pf := pf;
      this.oracle := oracle;
      this.fs := fs;
      log := [];
      exit := Continue;
    }

    /** CBREW_AUTO_REBUILD(argc, argv): the early breaks and exits of the macro, in order. */
    method Run(argv0: string)
      requires exit == Continue
      modifies this
      ensures var r := AutoRebuild(pf, argv0, old(fs), oracle);
        fs == r.fs && log == old(log) + r.cmds && exit == r.exit
    {
      hide Rename, Delete, FirstFileIsOlder, FileExists, ExecutableFilepath, Path;
      var sep := pf.Sep();
      if !FileExists(fs, SourceFile(pf), pf) {
        return;
      }
      var oldName := ExecutableFilepath(pf, argv0);
      if !FirstFileIsOlder(fs, oldName, SourceFile(pf), sep) {
        return;
      }
      var moved := Rename(fs, oldName, OldName(pf), sep, oracle.renameOk);
      if moved.None? {
        exit := ExitFailure;
        return;
      }
      fs := moved.value;
      log := log + [Cmd.Run(RebuildCommand(pf))];
      if !oracle.compileOk {
        var restored := Rename(fs, OldName(pf), oldName, sep, oracle.restoreOk);
        if restored.Some? {
          fs := restored.value;
        }
        exit := ExitFailure;
        return;
      }
      fs := Compiled(pf, fs, oracle);
      var deleted := Delete(fs, OldName(pf), oracle.deleteOk);
      if deleted.Some? {
        fs := deleted.value;
      }
      log := log + [Cmd.Run(oldName)];
      exit := if oracle.relaunchOk then ExitSuccess else ExitFailure;
    }
  }

  // ---------------------------------------------------------------------------
  // What the macro guarantees.

  /**
   * Nothing happens unless the executable is strictly older than an existing source:
   * the program carries on with the file system untouched and no command issued.
   */
  lemma ContinueIffFresh(pf: Platform, argv0: string, fs: FileSystem, o: Oracle)
    ensures var r := AutoRebuild(pf, argv0, fs, o);
      (r.exit == Continue <==> !Stale(pf, argv0, fs)) && (r.exit == Continue ==> r.fs == fs && r.cmds == [])
  {
  }

  /** A missing executable is not rebuilt: "older" needs both files. */
  lemma MissingExecutableNotRebuilt(pf: Platform, argv0: string, fs: FileSystem, o: Oracle)
    requires Path(ExecutableFilepath(pf, argv0), pf.Sep()) !in fs
    ensures AutoRebuild(pf, argv0, fs, o) == Outcome(fs, [], Continue)
  {
  }

  /** A failed move of the executable ends the program with failure, before any command. */
  lemma RenameFailureExits(pf: Platform, argv0: string, fs: FileSystem, o: Oracle)
    requires Stale(pf, argv0, fs) && !o.renameOk
    ensures AutoRebuild(pf, argv0, fs, o) == Outcome(fs, [], ExitFailure)
  {
  }

  /**
   * A failed compile puts the executable back where it was: when no cbrew.old existed
   * before, the file system is exactly restored; the only command issued is the compile.
   */
  lemma CompileFailureRestores(pf: Platform, argv0: string, fs: FileSystem, o: Oracle)
    requires Stale(pf, argv0, fs) && o.renameOk && !o.compileOk && o.restoreOk
    requires Path(OldName(pf), pf.Sep()) !in fs
    ensures AutoRebuild(pf, argv0, fs, o) == Outcome(fs, [Cmd.Run(RebuildCommand(pf))], ExitFailure)
  {
    var exe := ExecutableFilepath(pf, argv0);
    RenameRoundTrip(fs, exe, OldName(pf), pf.Sep());
  }

  /**
   * ... but a cbrew.old left by an earlier run is overwritten by the move and then gone,
   * while the executable is back in place, unchanged.
   */
  lemma CompileFailureLosesOldCopy(pf: Platform, argv0: string, fs: FileSystem, o: Oracle)
    requires Stale(pf, argv0, fs) && o.renameOk && !o.compileOk && o.restoreOk
    requires Path(OldName(pf), pf.Sep()) in fs && Path(OldName(pf), pf.Sep()) != Path(ExecutableFilepath(pf, argv0), pf.Sep())
    ensures Path(OldName(pf), pf.Sep()) !in AutoRebuild(pf, argv0, fs, o).fs
    ensures AutoRebuild(pf, argv0, fs, o).fs != fs
    ensures var exe := Path(ExecutableFilepath(pf, argv0), pf.Sep());
      exe in AutoRebuild(pf, argv0, fs, o).fs && AutoRebuild(pf, argv0, fs, o).fs[exe] == fs[exe]
  {
  }

  /**
   * After a successful compile the ending depends on the relaunch alone (a failed delete
   * is only a warning), and the relaunch runs the executable's path with no arguments.
   */
  lemma RelaunchDecides(pf: Platform, argv0: string, fs: FileSystem, o: Oracle)
    requires Stale(pf, argv0, fs) && o.renameOk && o.compileOk
    ensures var r := AutoRebuild(pf, argv0, fs, o);
      && r.cmds == [Cmd.Run(RebuildCommand(pf)), Cmd.Run(ExecutableFilepath(pf, argv0))]
      && (r.exit == ExitSuccess <==> o.relaunchOk)
      && r.exit != Continue
      && AutoRebuild(pf, argv0, fs, o.(deleteOk := !o.deleteOk)).exit == r.exit
  {
  }

  /**
   * A successful rebuild leaves the new executable and, when the delete is allowed, no
   * cbrew.old; and an executable written no earlier than the source is not rebuilt again.
   */
  lemma RebuildConverges(pf: Platform, argv0: string, fs: FileSystem, o: Oracle, o': Oracle)
    requires Stale(pf, argv0, fs) && o.renameOk && o.compileOk && o.deleteOk
    requires fs[SourceFile(pf)].mtime <= o.buildTime
    ensures var r := AutoRebuild(pf, argv0, fs, o);
      && Path(NewExecutable(pf), pf.Sep()) in r.fs
      && Path(OldName(pf), pf.Sep()) !in r.fs
      && AutoRebuild(pf, NewExecutable(pf), r.fs, o').exit == Continue
  {
    var sep := pf.Sep();
    var r := AutoRebuild(pf, argv0, fs, o);
    var src := SourceFile(pf);
    NamesAreNormalised(pf);
    DistinctNames(pf);
    var moved := Rename(fs, ExecutableFilepath(pf, argv0), OldName(pf), sep, true).value;
    assert src in moved && moved[src] == fs[src];
    ExecutableFilepathIdempotent(pf, "cbrew" + [sep] + "cbrew");
    assert !FirstFileIsOlder(r.fs, ExecutableFilepath(pf, NewExecutable(pf)), src, sep);
  }

  /** The fixed names are spelled with the platform separator already, so cbrew_path keeps them. */
  lemma NamesAreNormalised(pf: Platform)
    ensures Path(OldName(pf), pf.Sep()) == OldName(pf)
    ensures Path(SourceFile(pf), pf.Sep()) == SourceFile(pf)
    ensures Path(NewExecutable(pf), pf.Sep()) == NewExecutable(pf)
  {
    if pf.Linux? {
      PathOnLinux(OldName(pf));
      PathOnLinux(SourceFile(pf));
      PathOnLinux(NewExecutable(pf));
    } else {
      forall s: string | '/' !in s ensures Path(s, pf.Sep()) == s {
      }
      assert '/' !in NewExecutable(pf);
    }
  }

  /** The three fixed names are different files. */
  lemma DistinctNames(pf: Platform)
    ensures OldName(pf) != SourceFile(pf) && OldName(pf) != NewExecutable(pf) && SourceFile(pf) != NewExecutable(pf)
  {
    assert OldName(pf)[|OldName(pf)| - 1] == 'd';
    assert SourceFile(pf)[|SourceFile(pf)| - 1] == 'c';
    if pf.Linux? {
      assert |NewExecutable(pf)| == 11;
    } else {
      assert NewExecutable(pf)[|NewExecutable(pf)| - 1] == 'e';
    }
  }
}
