/**
 * cbrew_project_config_file_is_already_compiled: whether a source file's object is
 * still valid. The object must exist, must not be older than the running executable,
 * the dependency listing `gcc <includes>-MM <file>` must print a line, and no
 * dependency named on that line may be newer than the object. The line is an input.
 */
module Staleness {
  import opened Text
  import opened Paths
  import opened Arguments
  import opened Host

  /** The dependency-listing command for one source file. */
  function DependencyCommand(includeDirs: seq<string>, filepath: string): string
  {
    Compiler + " " + IncludeDirsStr(includeDirs) + "-MM " + filepath
  }

  /** The line as fgets returns it keeps its newline; the code cuts the last character. */
  function StripLast(line: string): (s: string)
    ensures line != [] ==> line == s + [line[|line| - 1]]
    ensures line == [] ==> s == []
  {
    if line == [] then [] else line[..|line| - 1]
  }

  /** The dependencies named on the line: every token after the first (the target), normalised. */
  function DependencyPaths(line: string, sep: char): seq<string>
  {
    var toks := Tokens(StripLast(line));
    if toks == [] then [] else seq(|toks| - 1, i requires 0 <= i < |toks| - 1 => Path(toks[i + 1], sep))
  }

  /** The first dependency that is newer than the object, if any. */
  function NewerDependency(fs: FileSystem, obj: string, deps: seq<string>, sep: char): (r: Option<nat>)
    ensures r.None? <==> forall i :: 0 <= i < |deps| ==> !FirstFileIsOlder(fs, obj, deps[i], sep)
    ensures r.Some? ==> r.value < |deps| && FirstFileIsOlder(fs, obj, deps[r.value], sep)
    ensures r.Some? ==> forall i :: 0 <= i < r.value ==> !FirstFileIsOlder(fs, obj, deps[i], sep)
  {
    if deps == [] then None
    else if FirstFileIsOlder(fs, obj, deps[0], sep) then Some(0)
    else match NewerDependency(fs, obj, deps[1..], sep)
      case None => None
      case Some(i) => Some(i + 1)
  }

  /** The object file the check looks at. */
  function ObjectPath(pf: Platform, objDir: string, filepath: string): string
  {
    StalenessObjectPath(objDir, pf.Sep(), filepath)
  }

  /** The checks before the dependency listing is requested, which decide whether it is. */
  predicate NeedsDependencyListing(fs: FileSystem, pf: Platform, argv0: string, objDir: string, filepath: string)
  {
    var obj := ObjectPath(pf, objDir, filepath);
    FileExists(fs, obj, pf) && !FirstFileIsOlder(fs, obj, ExecutableFilepath(pf, argv0), pf.Sep())
  }

  /** The verdict, with the early returns of the C function in order. */
  predicate IsAlreadyCompiled(fs: FileSystem, pf: Platform, argv0: string, objDir: string, filepath: string,
                              line: Option<string>)
  {
    var obj := ObjectPath(pf, objDir, filepath);
    if !FileExists(fs, obj, pf) then false
    else if FirstFileIsOlder(fs, obj, ExecutableFilepath(pf, argv0), pf.Sep()) then false
    else if line.None? then false
    else NewerDependency(fs, obj, DependencyPaths(line.value, pf.Sep()), pf.Sep()).None?
  }

  /**
   * The strtok loop: the first token (the make target) is skipped and every later one is
   * normalised and compared; the first newer dependency ends the check.
   */
  method DependenciesUpToDate(fs: FileSystem, obj: string, line: string, sep: char) returns (upToDate: bool)
    ensures upToDate <==> forall d :: d in DependencyPaths(line, sep) ==> !FirstFileIsOlder(fs, obj, d, sep)
  {
    var toks := Tokens(StripLast(line));
    ghost var deps := DependencyPaths(line, sep);
    if |toks| == 0 {
      assert deps == [];
      return true;
    }
    var k := 1;
    while k < |toks|
      invariant 1 <= k <= |toks|
      invariant forall i :: 0 <= i < k - 1 ==> !FirstFileIsOlder(fs, obj, deps[i], sep)
    {
      var dependency := Path(toks[k], sep);
      if FirstFileIsOlder(fs, obj, dependency, sep) {
        assert deps[k - 1] == dependency;
        return false;
      }
      k := k + 1;
    }
    assert forall d :: d in deps ==> exists i :: 0 <= i < |deps| && deps[i] == d;
    upToDate := true;
  }

  // ---------------------------------------------------------------------------
  // What the verdict means.

  /**
   * The verdict holds iff all four conditions hold: the object opens for reading (a
   * directory does only on Linux), it is not older than the executable, the listing
   * printed a line, and no dependency is newer; equal times count as up to date.
   */
  lemma AlreadyCompiledIff(fs: FileSystem, pf: Platform, argv0: string, objDir: string, filepath: string,
                           line: Option<string>)
    ensures var obj := ObjectPath(pf, objDir, filepath);
      IsAlreadyCompiled(fs, pf, argv0, objDir, filepath, line) <==>
        && obj in fs && (fs[obj].isDir ==> pf.Linux?)
        && !FirstFileIsOlder(fs, obj, ExecutableFilepath(pf, argv0), pf.Sep())
        && line.Some?
        && forall d :: d in DependencyPaths(line.value, pf.Sep()) ==> !FirstFileIsOlder(fs, obj, d, pf.Sep())
  {
    var obj := ObjectPath(pf, objDir, filepath);
    if line.Some? {
      var deps := DependencyPaths(line.value, pf.Sep());
      assert forall d :: d in deps ==> exists i :: 0 <= i < |deps| && deps[i] == d;
    }
  }

  /**
   * A directory where the object should be: on Windows it does not open, so the file is
   * recompiled; on Linux it opens, is never older than anything, and the file counts as
   * up to date as soon as the listing prints a line.
   */
  lemma DirectoryObject(fs: FileSystem, pf: Platform, argv0: string, objDir: string, filepath: string,
                        line: Option<string>)
    requires ObjectPath(pf, objDir, filepath) in fs && fs[ObjectPath(pf, objDir, filepath)].isDir
    requires Path(ObjectPath(pf, objDir, filepath), pf.Sep()) == ObjectPath(pf, objDir, filepath)
    ensures IsAlreadyCompiled(fs, pf, argv0, objDir, filepath, line) <==> pf.Linux? && line.Some?
  {
    var obj := ObjectPath(pf, objDir, filepath);
    if pf.Linux? && line.Some? {
      AlreadyCompiledIff(fs, pf, argv0, objDir, filepath, line);
    }
  }

  /** A dependency that is strictly newer than the object forces a recompile. */
  lemma NewerDependencyForcesRecompile(fs: FileSystem, pf: Platform, argv0: string, objDir: string,
                                       filepath: string, line: string, d: nat)
    requires d < |DependencyPaths(line, pf.Sep())|
    requires FirstFileIsOlder(fs, ObjectPath(pf, objDir, filepath), DependencyPaths(line, pf.Sep())[d], pf.Sep())
    ensures !IsAlreadyCompiled(fs, pf, argv0, objDir, filepath, Some(line))
  {
  }

  /** Without a listing line the file is always recompiled, whatever the timestamps say. */
  lemma NoListingForcesRecompile(fs: FileSystem, pf: Platform, argv0: string, objDir: string, filepath: string)
    ensures !IsAlreadyCompiled(fs, pf, argv0, objDir, filepath, None)
  {
  }

  /** Dependencies that are missing or directories never force a recompile on their own. */
  lemma UnstattableDependenciesIgnored(fs: FileSystem, pf: Platform, argv0: string, objDir: string,
                                       filepath: string, line: string)
    requires NeedsDependencyListing(fs, pf, argv0, objDir, filepath)
    requires forall d :: d in DependencyPaths(line, pf.Sep()) ==> Path(d, pf.Sep()) !in fs || fs[Path(d, pf.Sep())].isDir
    ensures IsAlreadyCompiled(fs, pf, argv0, objDir, filepath, Some(line))
  {
    AlreadyCompiledIff(fs, pf, argv0, objDir, filepath, Some(line));
  }

  /**
   * Rewriting the object at a time no earlier than every file it is compared with makes
   * it up to date, provided the listing prints a line.
   */
  lemma FreshObjectIsUpToDate(fs: FileSystem, pf: Platform, argv0: string, objDir: string, filepath: string,
                              line: string, t: int)
    requires Path(ObjectPath(pf, objDir, filepath), pf.Sep()) == ObjectPath(pf, objDir, filepath)
    requires forall p :: p in fs ==> fs[p].mtime <= t
    ensures var obj := ObjectPath(pf, objDir, filepath);
      IsAlreadyCompiled(fs[obj := FileInfo(false, t)], pf, argv0, objDir, filepath, Some(line))
  {
    var sep := pf.Sep();
    var obj := ObjectPath(pf, objDir, filepath);
    var fs' := fs[obj := FileInfo(false, t)];
    forall second: string ensures !FirstFileIsOlder(fs', obj, second, sep) {
      TouchedIsNotOlder(fs, obj, second, sep, t);
    }
    AlreadyCompiledIff(fs', pf, argv0, objDir, filepath, Some(line));
  }
}
