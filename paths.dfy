/**
 * Platform constants and the path-shaped string helpers of cbrew.h:
 * cbrew_path, the basename and object-file derivations, cbrew_wildcard_directory
 * and cbrew_executable_filepath.
 */
module Paths {
  import opened Text

  /** The two platforms cbrew.h implements; everything platform-specific hangs off this. */
  datatype Platform = Linux | Windows {
    /** CBREW_PATH_SEPARATOR */
    function Sep(): char { if Linux? then '/' else '\\' }
    /** CBREW_STATIC_LIB_EXTENSION */
    function StaticLibExtension(): string { if Linux? then "a" else "lib" }
    /** CBREW_DYNAMIC_LIB_EXTENSION */
    function DynamicLibExtension(): string { if Linux? then "so" else "dll" }
    /** CBREW_LIB_PREFIX */
    function LibPrefix(): string { if Linux? then "lib" else "" }
  }

  /** CBREW_COMPILER: both gcc and clang define __GNUC__, so the name is always "gcc". */
  const Compiler: string := "gcc"

  /** cbrew_path: every '/' is replaced by the separator, everything else is kept. */
  function Path(s: string, sep: char): string
  {
    seq(|s|, i requires 0 <= i < |s| => if s[i] == '/' then sep else s[i])
  }

  /** Normalising twice is normalising once, so re-normalising a normalised path changes nothing. */
  lemma PathIdempotent(s: string, sep: char)
    ensures Path(Path(s, sep), sep) == Path(s, sep)
  {
  }

  /** Normalisation works character by character, so it distributes over concatenation. */
  lemma PathAppend(a: string, b: string, sep: char)
    ensures Path(a + b, sep) == Path(a, sep) + Path(b, sep)
  {
  }

  /** With '/' as the separator (Linux) normalisation is the identity. */
  lemma PathOnLinux(s: string)
    ensures Path(s, Linux.Sep()) == s
  {
  }

  /** The loop of cbrew_path, rewriting the buffer in place. */
  method PathInPlace(path: array<char>, sep: char)
    modifies path
    ensures path[..] == Path(old(path[..]), sep)
  {
    for i := 0 to path.Length
      invariant path[..i] == Path(old(path[..]), sep)[..i]
      invariant path[i..] == old(path[..])[i..]
    {
      if path[i] == '/' {
        path[i] := sep;
      }
    }
  }

  /** The file name of a path: what follows the last separator (strrchr), or the whole path. */
  function Basename(path: string, sep: char): (name: string)
    ensures sep !in name
    ensures |name| <= |path| && path[|path| - |name|..] == name
    ensures sep !in path ==> name == path
  {
    match LastIndexOf(path, sep)
    case None => path
    case Some(i) => path[i + 1..]
  }

  /**
   * The extension rewrite shared by both object-name derivations: the text after the
   * last '.' becomes "o", or ".o" is appended when there is no '.'.
   */
  function WithObjectExtension(s: string): (r: string)
    ensures 2 <= |r| <= |s| + 2 && r[|r| - 2..] == ".o"
    ensures r[..|r| - 2] == s[..|r| - 2]
    ensures s[|r| - 2..] == [] || (s[|r| - 2] == '.' && '.' !in s[|r| - 1..])
  {
    match LastIndexOf(s, '.')
    case None => s + ".o"
    case Some(i) => s[..i + 1] + "o"
  }

  /** The object file the compile phase writes: the rewrite applied to the basename only. */
  function CompileObjectPath(objDir: string, sep: char, filepath: string): string
  {
    objDir + [sep] + WithObjectExtension(Basename(filepath, sep))
  }

  /** The object file the staleness check looks for: the rewrite applied to the whole joined path. */
  function StalenessObjectPath(objDir: string, sep: char, filepath: string): string
  {
    WithObjectExtension(objDir + [sep] + Basename(filepath, sep))
  }

  /** When the basename has a '.', both derivations name the same object file. */
  lemma {:induction false} ObjectPathsAgree(objDir: string, sep: char, filepath: string)
    requires '.' in Basename(filepath, sep)
    ensures StalenessObjectPath(objDir, sep, filepath) == CompileObjectPath(objDir, sep, filepath)
  {
    hide Basename, LastIndexOf;
    var name := Basename(filepath, sep);
    var prefix := objDir + [sep];
    LastIndexOfAppend(prefix, name, '.');
    var i := LastIndexOf(name, '.').value;
    assert WithObjectExtension(name) == name[..i + 1] + "o";
    assert WithObjectExtension(prefix + name) == (prefix + name)[..|prefix| + i + 1] + "o";
    assert (prefix + name)[..|prefix| + i + 1] == prefix + name[..i + 1];
  }

  /**
   * When the basename has no '.' but the object directory does, the staleness check
   * looks at a different file (cut at the directory's '.') from the one compiled.
   */
  lemma {:induction false} ObjectPathsDisagree(objDir: string, sep: char, filepath: string)
    requires '.' !in Basename(filepath, sep) && '.' in objDir && sep != '.'
    ensures StalenessObjectPath(objDir, sep, filepath) != CompileObjectPath(objDir, sep, filepath)
  {
    var name := Basename(filepath, sep);
    var joined := objDir + [sep] + name;
    var i := LastIndexOf(joined, '.').value;
    var d := LastIndexOf(objDir, '.').value;
    assert joined[d] == '.';
    assert joined[|objDir| + 1..] == name;
    assert |StalenessObjectPath(objDir, sep, filepath)| == i + 2;
  }

  /** cbrew_executable_filepath: Windows appends ".exe" when argv[0] has no '.' anywhere. */
  function ExecutableFilepath(pf: Platform, argv0: string): (exe: string)
    ensures |exe| >= |argv0| && exe[..|argv0|] == argv0
    ensures pf.Windows? ==> '.' in exe
  {
    if pf.Windows? && '.' !in argv0 then argv0 + ".exe" else argv0
  }

  /** Deriving the executable path of an executable path changes nothing. */
  lemma ExecutableFilepathIdempotent(pf: Platform, argv0: string)
    ensures ExecutableFilepath(pf, ExecutableFilepath(pf, argv0)) == ExecutableFilepath(pf, argv0)
  {
  }

  /** The characters cbrew_wildcard_directory cuts at. */
  predicate IsMeta(c: char) { c == '?' || c == '*' || c == '[' }

  /** The position of the first wildcard character, or the length when there is none. */
  function FirstMeta(s: string): (n: nat)
    ensures n <= |s|
    ensures forall j :: 0 <= j < n ==> !IsMeta(s[j])
    ensures n < |s| ==> IsMeta(s[n])
  {
    if s == [] || IsMeta(s[0]) then 0 else FirstMeta(s[1..]) + 1
  }

  /**
   * cbrew_wildcard_directory: the normalised wildcard cut before its first wildcard
   * character, then before its last separator; "." when no separator is left.
   */
  function WildcardDirectory(pf: Platform, wildcard: string): (dir: string)
    ensures var p := Path(wildcard, pf.Sep()); var n := FirstMeta(p);
      pf.Sep() !in p[..n] ==> dir == "."
    ensures var p := Path(wildcard, pf.Sep()); var n := FirstMeta(p);
      pf.Sep() in p[..n] ==>
        && |dir| < n && p[..|dir|] == dir && p[|dir|] == pf.Sep()
        && pf.Sep() !in p[|dir| + 1..n]
    ensures dir == "." || forall j :: 0 <= j < |dir| ==> !IsMeta(dir[j])
  {
    var p := Path(wildcard, pf.Sep());
    var head := p[..FirstMeta(p)];
    match LastIndexOf(head, pf.Sep())
    case None => "."
    case Some(i) =>
      assert head[i + 1..] == p[i + 1..FirstMeta(p)];
      head[..i]
  }

  /**
   * What the two truncations of cbrew_wildcard_directory leave: cut at the first wildcard
   * character n, then at the separator before position k, or "." when k reaches 0.
   */
  lemma WildcardDirectoryCut(pf: Platform, wildcard: string, n: nat, k: nat)
    requires n <= |Path(wildcard, pf.Sep())| && k <= n
    requires forall j :: 0 <= j < n ==> !IsMeta(Path(wildcard, pf.Sep())[j])
    requires n < |Path(wildcard, pf.Sep())| ==> IsMeta(Path(wildcard, pf.Sep())[n])
    requires pf.Sep() !in Path(wildcard, pf.Sep())[k..n]
    requires k > 0 ==> Path(wildcard, pf.Sep())[k - 1] == pf.Sep()
    ensures WildcardDirectory(pf, wildcard) == if k == 0 then "." else Path(wildcard, pf.Sep())[..k - 1]
  {
    var sep := pf.Sep();
    var p := Path(wildcard, sep);
    hide Path;
    assert FirstMeta(p) == n;
    var head := p[..n];
    if k == 0 {
      assert head == p[0..n];
    } else {
      assert head[k - 1] == sep && head[k..] == p[k..n];
      assert LastIndexOf(head, sep) == Some(k - 1);
    }
  }

  /** A wildcard below src/sub is listed from "src/sub"; "*.c" from ".". */
  lemma WildcardDirectoryExamples()
    ensures WildcardDirectory(Linux, "src/sub/*.c") == "src/sub"
    ensures WildcardDirectory(Linux, "*.c") == "."
  {
    PathOnLinux("src/sub/*.c");
    PathOnLinux("*.c");
    WildcardDirectoryCut(Linux, "src/sub/*.c", 8, 8);
    WildcardDirectoryCut(Linux, "*.c", 0, 0);
  }

  /** The steps of cbrew_wildcard_directory on a fresh buffer: copy, normalise, truncate twice. */
  method GetWildcardDirectory(pf: Platform, wildcard: string) returns (dir: string)
    ensures dir == WildcardDirectory(pf, wildcard)
  {
    var sep := pf.Sep();
    var buf := new char[|wildcard|](i requires 0 <= i < |wildcard| => wildcard[i]);
    assert buf[..] == wildcard;
    PathInPlace(buf, sep);
    ghost var p := buf[..];
    assert p == Path(wildcard, sep);
    hide Path, WildcardDirectory;
    var n := 0;
    while n < buf.Length && !IsMeta(buf[n])
      invariant n <= buf.Length
      invariant forall j :: 0 <= j < n ==> !IsMeta(p[j])
    {
      n := n + 1;
    }
    var k := n;
    while k > 0 && buf[k - 1] != sep
      invariant 0 <= k <= n
      invariant sep !in p[k..n]
    {
      k := k - 1;
    }
    WildcardDirectoryCut(pf, wildcard, n, k);
    if k == 0 {
      dir := ".";
    } else {
      dir := buf[..k - 1];
    }
  }
}
