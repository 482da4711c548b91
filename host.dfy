/**
 * What the build engine observes of its host, made explicit: a file system reduced to
 * what cbrew looks at (whether a path exists, is a directory, and its modification
 * time), the commands it issues, and a World that answers for the outside.
 */
module Host {
  import opened Text
  import opened Paths

  datatype FileInfo = FileInfo(isDir: bool, mtime: int)

  /** Paths as cbrew spells them after cbrew_path, mapped to what stat reports. */
  type FileSystem = map<string, FileInfo>

  /**
   * cbrew_file_exists: fopen(path, "r") succeeds on a present regular file; on a
   * directory it succeeds on Linux (a directory opens read-only) and fails on Windows.
   */
  predicate FileExists(fs: FileSystem, path: string, pf: Platform)
  {
    path in fs && (pf.Linux? || !fs[path].isDir)
  }

  /**
   * cbrew_first_file_is_older: both paths stat to regular files and the second was
   * modified strictly later. The Windows version normalises both paths first; on Linux
   * normalising is the identity (Paths.PathOnLinux), so one definition serves both.
   */
  predicate FirstFileIsOlder(fs: FileSystem, first: string, second: string, sep: char)
  {
    var a := Path(first, sep);
    var b := Path(second, sep);
    && a in fs && !fs[a].isDir
    && b in fs && !fs[b].isDir
    && fs[a].mtime < fs[b].mtime
  }

  /** A missing file or a directory is never older nor newer than anything. */
  lemma OlderNeedsTwoFiles(fs: FileSystem, first: string, second: string, sep: char)
    requires FirstFileIsOlder(fs, first, second, sep)
    ensures Path(first, sep) in fs && !fs[Path(first, sep)].isDir
    ensures Path(second, sep) in fs && !fs[Path(second, sep)].isDir
  {
  }

  /** "Older" is a strict order: irreflexive, asymmetric (equal times are neither) and transitive. */
  lemma OlderIsStrict(fs: FileSystem, a: string, b: string, c: string, sep: char)
    ensures !FirstFileIsOlder(fs, a, a, sep)
    ensures FirstFileIsOlder(fs, a, b, sep) ==> !FirstFileIsOlder(fs, b, a, sep)
    ensures FirstFileIsOlder(fs, a, b, sep) && FirstFileIsOlder(fs, b, c, sep) ==> FirstFileIsOlder(fs, a, c, sep)
  {
  }

  /** Writing the first file at a time no earlier than the second's makes it not older. */
  lemma TouchedIsNotOlder(fs: FileSystem, first: string, second: string, sep: char, t: int)
    requires Path(second, sep) in fs ==> fs[Path(second, sep)].mtime <= t
    ensures !FirstFileIsOlder(fs[Path(first, sep) := FileInfo(false, t)], first, second, sep)
  {
  }

  /**
   * cbrew_file_rename over the file system: whether the host lets the rename happen is
   * an input; a missing source always fails. An existing target is replaced, as rename
   * and MoveFileEx with MOVEFILE_REPLACE_EXISTING do.
   */
  function Rename(fs: FileSystem, from: string, to: string, sep: char, allowed: bool): (r: Option<FileSystem>)
    ensures r.Some? <==> allowed && Path(from, sep) in fs
    ensures r.Some? ==> Path(to, sep) in r.value && r.value[Path(to, sep)] == fs[Path(from, sep)]
    ensures r.Some? ==> forall p :: p in fs && p != Path(from, sep) && p != Path(to, sep) ==> p in r.value && r.value[p] == fs[p]
    ensures r.Some? && Path(from, sep) != Path(to, sep) ==> Path(from, sep) !in r.value
  {
    var a := Path(from, sep);
    var b := Path(to, sep);
    if allowed && a in fs then Some((fs - {a})[b := fs[a]]) else None
  }

  /** Renaming there and back restores the file system when the target did not exist. */
  lemma RenameRoundTrip(fs: FileSystem, from: string, to: string, sep: char)
    requires Path(from, sep) in fs && Path(to, sep) !in fs
    ensures Rename(fs, from, to, sep, true).Some?
    ensures Rename(Rename(fs, from, to, sep, true).value, to, from, sep, true) == Some(fs)
  {
    var a := Path(from, sep);
    var b := Path(to, sep);
    var fs1 := Rename(fs, from, to, sep, true).value;
    var fs2 := Rename(fs1, to, from, sep, true).value;
    assert fs1 == (fs - {a})[b := fs[a]];
    assert fs2 == (fs1 - {b})[a := fs1[b]];
    assert fs2.Keys == fs.Keys;
    assert forall p :: p in fs ==> fs2[p] == fs[p];
    assert fs2 == fs;
  }

  /** cbrew_file_delete / unlink: whether the host lets it happen is an input. */
  function Delete(fs: FileSystem, path: string, allowed: bool): (r: Option<FileSystem>)
    ensures r.Some? <==> allowed && path in fs
    ensures r.Some? ==> r.value == fs - {path}
  {
    if allowed && path in fs then Some(fs - {path}) else None
  }

  /** A command as issued: through system() (its exit status matters) or through popen(). */
  datatype Cmd = Run(line: string) | Pipe(line: string)

  /**
   * The outside world, indexed by the number of commands issued so far (the log
   * position): the file system at that point, the recursive listing of "." at that
   * point, the listing of a directory at that point, whether the command issued at
   * that position exits with status 0, and the first line a piped command prints
   * (None when popen fails or nothing is printed).
   */
  datatype World = World(
    files: nat -> FileSystem,
    walk: nat -> seq<string>,
    list: (nat, string) -> seq<string>,
    exitOk: (nat, string) -> bool,
    firstLine: (nat, string) -> Option<string>)
}
