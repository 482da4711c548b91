/**
 * Source and object selection as filters over a directory listing:
 * cbrew_project_file_matches_wildcards, cbrew_project_find_source_files and
 * cbrew_config_create_obj_files_str. Listings are inputs in whatever order the host
 * produced them; each entry is the listed directory, a separator and a name, so the
 * recursive listing of "." yields entries that start with "./".
 */
module Sources {
  import opened Text
  import opened Paths
  import opened Wildcard
  import opened Arguments

  /** cbrew_project_file_matches_wildcards: the first wildcard that matches decides. */
  function AnyWildcard(wildcards: seq<string>, filepath: string, pf: Platform): (r: bool)
    ensures r <==> exists i :: 0 <= i < |wildcards| && Matches(filepath, wildcards[i], pf)
  {
    if wildcards == [] then false
    else if Matches(filepath, wildcards[0], pf) then true
    else
      var r := AnyWildcard(wildcards[1..], filepath, pf);
      assert forall i :: 1 <= i < |wildcards| ==> wildcards[i] == wildcards[1..][i - 1];
      r
  }

  /** The entries of the listing some wildcard selects, in listing order. */
  function SourceFiles(listing: seq<string>, wildcards: seq<string>, pf: Platform): seq<string>
  {
    if listing == [] then []
    else
      var init := SourceFiles(listing[..|listing| - 1], wildcards, pf);
      var last := listing[|listing| - 1];
      if AnyWildcard(wildcards, last, pf) then init + [last] else init
  }

  /** Exactly the listed entries that some wildcard matches are selected. */
  lemma {:induction false} SourceFilesMembers(listing: seq<string>, wildcards: seq<string>, pf: Platform, f: string)
    ensures f in SourceFiles(listing, wildcards, pf) <==> f in listing && AnyWildcard(wildcards, f, pf)
    decreases |listing|
  {
    if listing != [] {
      var init := listing[..|listing| - 1];
      SourceFilesMembers(init, wildcards, pf, f);
      assert listing == init + [listing[|listing| - 1]];
    }
  }

  /** Selection never yields more entries than the listing, and no wildcards select nothing. */
  lemma {:induction false} SourceFilesSubsequence(listing: seq<string>, wildcards: seq<string>, pf: Platform)
    ensures |SourceFiles(listing, wildcards, pf)| <= |listing|
    ensures wildcards == [] ==> SourceFiles(listing, wildcards, pf) == []
    decreases |listing|
  {
    if listing != [] {
      SourceFilesSubsequence(listing[..|listing| - 1], wildcards, pf);
    }
  }

  /** A listing without duplicates yields a selection without duplicates. */
  lemma {:induction false} SourceFilesDistinct(listing: seq<string>, wildcards: seq<string>, pf: Platform)
    requires forall i, j :: 0 <= i < j < |listing| ==> listing[i] != listing[j]
    ensures var s := SourceFiles(listing, wildcards, pf); forall i, j :: 0 <= i < j < |s| ==> s[i] != s[j]
    decreases |listing|
  {
    if listing != [] {
      var init := listing[..|listing| - 1];
      SourceFilesDistinct(init, wildcards, pf);
      SourceFilesMembers(init, wildcards, pf, listing[|listing| - 1]);
    }
  }

  /**
   * cbrew_project_find_source_files: one pass counts the matching entries, a second
   * fills an array of exactly that size in listing order.
   */
  method FindSourceFiles(listing: seq<string>, wildcards: seq<string>, pf: Platform) returns (files: seq<string>)
    ensures files == SourceFiles(listing, wildcards, pf)
  {
    hide AnyWildcard, Matches;
    var count := 0;
    for i := 0 to |listing|
      invariant count == |SourceFiles(listing[..i], wildcards, pf)|
    {
      assert listing[..i + 1][..i] == listing[..i];
      if AnyWildcard(wildcards, listing[i], pf) {
        count := count + 1;
      }
    }
    assert listing[..|listing|] == listing;
    if count == 0 {
      return [];
    }
    var found := new string[count];
    var next := 0;
    for i := 0 to |listing|
      invariant next == |SourceFiles(listing[..i], wildcards, pf)| <= count
      invariant found[..next] == SourceFiles(listing[..i], wildcards, pf)
    {
      assert listing[..i + 1][..i] == listing[..i];
      PrefixSelectsLess(listing, wildcards, pf, i + 1);
      if AnyWildcard(wildcards, listing[i], pf) {
        found[next] := listing[i];
        next := next + 1;
      }
    }
    files := found[..];
  }

  /** Selecting from a prefix of the listing selects no more than from the whole. */
  lemma {:induction false} PrefixSelectsLess(listing: seq<string>, wildcards: seq<string>, pf: Platform, n: nat)
    requires n <= |listing|
    ensures |SourceFiles(listing[..n], wildcards, pf)| <= |SourceFiles(listing, wildcards, pf)|
    decreases |listing| - n
  {
    if n < |listing| {
      PrefixSelectsLess(listing, wildcards, pf, n + 1);
      assert listing[..n + 1][..n] == listing[..n];
    } else {
      assert listing[..n] == listing;
    }
  }

  /**
   * Entries of the recursive listing of "." all start with "./", so a wildcard whose
   * first character is a literal other than '.' selects nothing from it.
   */
  lemma DotListingNeedsDotWildcard(entry: string, wildcard: string, pf: Platform)
    requires |entry| >= 2 && entry[..2] == "./"
    requires wildcard != [] && !IsMeta(wildcard[0]) && wildcard[0] != '.'
    ensures !Matches(entry, wildcard, pf)
  {
  }

  /** "*.c" matches "./a.c", and also "./sub/a.c": a non-final '*' crosses separators. */
  lemma DotListingExamples()
    ensures Matches("./a.c", "*.c", Linux)
    ensures Matches("./sub/a.c", "*.c", Linux)
  {
    hide IndexOf;
    PathOnLinux("./a.c");
    PathOnLinux("./sub/a.c");
    PathOnLinux("*.c");
    assert "*.c" == "*" + ".c";
    InnerStar("./a.c", ".c", '/');
    assert "./a.c"[3..] == ".c";
    PlainPattern(".c", ".c", '/');
    InnerStar("./sub/a.c", ".c", '/');
    assert "./sub/a.c"[7..] == ".c";
  }

  // ---------------------------------------------------------------------------
  // The object list.

  /** The wildcard `<obj_dir><sep>*.o`. */
  function ObjectWildcard(objDir: string, sep: char): string
  {
    objDir + [sep] + "*.o"
  }

  /** The entries of the object directory's listing that the object wildcard matches, in order. */
  function ObjectFiles(listing: seq<string>, objDir: string, pf: Platform): seq<string>
  {
    SourceFiles(listing, [ObjectWildcard(objDir, pf.Sep())], pf)
  }

  function Quoted(f: string): string { "\"" + f + "\"" }

  function QuotedPieces(files: seq<string>): seq<string>
  {
    seq(|files|, i requires 0 <= i < |files| => Quoted(files[i]) + " ")
  }

  /** What cbrew_config_create_obj_files_str returns for the matched entries. */
  function ObjFilesStr(files: seq<string>): string
  {
    var s := Concat(QuotedPieces(files));
    if s == [] then "" else s[..|s| - 1]
  }

  /** The quoted names are joined by single spaces: adding an entry adds " " and its quoted name. */
  lemma ObjFilesStrAppend(files: seq<string>, f: string)
    ensures ObjFilesStr([f]) == Quoted(f)
    ensures files != [] ==> ObjFilesStr(files + [f]) == ObjFilesStr(files) + " " + Quoted(f)
  {
    assert QuotedPieces([f]) == [Quoted(f) + " "];
    assert [Quoted(f) + " "][..0] == [];
    assert Concat([Quoted(f) + " "]) == "" + (Quoted(f) + " ") == Quoted(f) + " ";
    assert (Quoted(f) + " ")[..|Quoted(f)|] == Quoted(f);
    if files != [] {
      assert QuotedPieces(files + [f]) == QuotedPieces(files) + [Quoted(f) + " "];
      ConcatAppend(QuotedPieces(files), [Quoted(f) + " "]);
      var s := Concat(QuotedPieces(files));
      var last := files[|files| - 1];
      assert QuotedPieces(files) == QuotedPieces(files[..|files| - 1]) + [Quoted(last) + " "];
      ConcatAppend(QuotedPieces(files[..|files| - 1]), [Quoted(last) + " "]);
      assert s != [] && s[|s| - 1] == ' ';
      assert s == s[..|s| - 1] + " ";
    }
  }

  /** The list is empty only without entries, and never ends in a space. */
  lemma ObjFilesStrShape(files: seq<string>)
    ensures ObjFilesStr(files) == "" <==> files == []
    ensures ObjFilesStr(files) != "" ==> ObjFilesStr(files)[|ObjFilesStr(files)| - 1] == '"'
  {
    if files != [] {
      var init := files[..|files| - 1];
      var f := files[|files| - 1];
      assert files == init + [f];
      ObjFilesStrAppend(init, f);
    }
  }

  /** Each entry quoted. */
  function QuotedAll(files: seq<string>): seq<string>
  {
    seq(|files|, i requires 0 <= i < |files| => Quoted(files[i]))
  }

  /** Split on spaces, the list gives one quoted argument per entry, in order. */
  lemma {:induction false} ObjFilesStrTokens(files: seq<string>)
    requires forall i :: 0 <= i < |files| ==> ' ' !in files[i]
    ensures Tokens(ObjFilesStr(files)) == QuotedAll(files)
  {
    if files == [] {
      assert QuotedPieces(files) == [];
    } else {
      var quoted := QuotedAll(files);
      QuotedAsPrefixed(files);
      forall i | 0 <= i < |quoted| ensures ' ' !in quoted[i] && "" + quoted[i] != [] {
        assert ' ' !in files[i];
        assert "" + quoted[i] == quoted[i];
      }
      PrefixedTokens("", quoted);
      var s := Concat(QuotedPieces(files));
      QuotedPiecesEndInSpace(files);
      TrailingSpaceTokens(s[..|s| - 1]);
    }
  }

  lemma QuotedAsPrefixed(files: seq<string>)
    ensures QuotedPieces(files) == Prefixed("", QuotedAll(files))
    ensures Words("", QuotedAll(files)) == QuotedAll(files)
  {
    var quoted := QuotedAll(files);
    forall i | 0 <= i < |files| ensures QuotedPieces(files)[i] == Prefixed("", quoted)[i] {
      assert "" + quoted[i] == quoted[i];
    }
    forall i | 0 <= i < |quoted| ensures Words("", quoted)[i] == quoted[i] {
      assert "" + quoted[i] == quoted[i];
    }
  }

  lemma QuotedPiecesEndInSpace(files: seq<string>)
    requires files != []
    ensures var s := Concat(QuotedPieces(files)); s != [] && s == s[..|s| - 1] + " "
  {
    var pieces := QuotedPieces(files);
    var last := Quoted(files[|files| - 1]) + " ";
    assert pieces == QuotedPieces(files[..|files| - 1]) + [last];
    ConcatAppend(QuotedPieces(files[..|files| - 1]), [last]);
    assert [last][..0] == [];
  }

  /** A trailing space separates nothing. */
  lemma {:induction false} TrailingSpaceTokens(s: string)
    ensures Tokens(s + " ") == Tokens(s)
    decreases |s|
  {
    if s == [] {
      assert (s + " ")[1..] == [];
    } else if s[0] == ' ' {
      assert (s + " ")[1..] == s[1..] + " ";
      TrailingSpaceTokens(s[1..]);
    } else {
      var n := WordEnd(s);
      WordEndExtend(s);
      assert (s + " ")[..n] == s[..n];
      assert (s + " ")[n..] == s[n..] + " ";
      TrailingSpaceTokens(s[n..]);
    }
  }

  /** A word ends at the same place after a space is appended. */
  lemma {:induction false} WordEndExtend(s: string)
    ensures WordEnd(s + " ") == WordEnd(s)
    decreases |s|
  {
    if s != [] && s[0] != ' ' {
      assert (s + " ")[1..] == s[1..] + " ";
      WordEndExtend(s[1..]);
    }
  }

  /**
   * An entry of the object directory's listing is in the list iff its name ends in
   * ".o"; the literal-first rule makes a name starting with '*' an exception.
   */
  lemma ObjectEntryMatches(objDir: string, name: string, pf: Platform)
    requires Path(objDir, pf.Sep()) == objDir && Path(name, pf.Sep()) == name
    requires name == [] || name[0] != '*'
    ensures Matches(objDir + [pf.Sep()] + name, ObjectWildcard(objDir, pf.Sep()), pf)
        <==> |name| >= 2 && name[|name| - 2..] == ".o"
  {
    var sep := pf.Sep();
    var p := objDir + [sep];
    PathAppend(objDir, [sep], sep);
    PathAppend(p, name, sep);
    PathAppend(p, "*.o", sep);
    assert Path([sep], sep) == [sep];
    assert Path("*.o", sep) == "*.o";
    assert ObjectWildcard(objDir, sep) == p + "*.o";
    hide Path, MatchFrom, IndexOf, SomeSuffix;
    SharedPrefix(p, name, "*.o", sep);
    StarDotO(name, sep);
  }

  /** "*.o" selects exactly the names ending in ".o", unless the name starts with '*'. */
  lemma StarDotO(name: string, sep: char)
    requires name == [] || name[0] != '*'
    ensures MatchFrom(name, "*.o", sep) <==> |name| >= 2 && name[|name| - 2..] == ".o"
  {
    assert "*.o" == "*" + ".o";
    if name != [] {
      hide IndexOf, MatchFrom, SomeSuffix;
      InnerStar(name, ".o", sep);
      if |name| >= 2 && name[|name| - 2..] == ".o" {
        PlainPattern(name[|name| - 2..], ".o", sep);
      } else {
        forall j | 0 <= j < |name| ensures !MatchFrom(name[j..], ".o", sep) {
          PlainPattern(name[j..], ".o", sep);
        }
      }
    }
  }

  /**
   * cbrew_config_create_obj_files_str: a pass sizes the buffer at |"f"| + 1 per matched
   * entry; no match gives ""; otherwise each entry is written quoted and followed by a
   * space, and the last space is cut off.
   */
  method CreateObjFilesStr(listing: seq<string>, objDir: string, pf: Platform) returns (s: string)
    ensures s == ObjFilesStr(ObjectFiles(listing, objDir, pf))
  {
    assert listing[..0] == [];
    assert |Concat(QuotedPieces(ObjectFiles([], objDir, pf)))| == 0;
    hide Matches, Concat, QuotedPieces, ObjectFiles;
    var wildcard := ObjectWildcard(objDir, pf.Sep());
    var len := 0;
    for i := 0 to |listing|
      invariant len == |Concat(QuotedPieces(ObjectFiles(listing[..i], objDir, pf)))|
    {
      ObjectFilesStep(listing, objDir, pf, i);
      if Matches(listing[i], wildcard, pf) {
        len := len + |"\""| + |listing[i]| + |"\""| + |" "|;
      }
    }
    assert listing[..|listing|] == listing;
    if len == 0 {
      return "";
    }
    var full := Render(QuotedPieces(ObjectFiles(listing, objDir, pf)), len);
    s := full[..len - 1];
  }

  /** The sizing pass: each matched entry adds its length and three characters. */
  lemma ObjectFilesStep(listing: seq<string>, objDir: string, pf: Platform, i: nat)
    requires i < |listing|
    ensures var n := |Concat(QuotedPieces(ObjectFiles(listing[..i], objDir, pf)))|;
      |Concat(QuotedPieces(ObjectFiles(listing[..i + 1], objDir, pf)))|
      == if Matches(listing[i], ObjectWildcard(objDir, pf.Sep()), pf) then n + |listing[i]| + 3 else n
  {
    hide Matches;
    assert listing[..i + 1][..i] == listing[..i];
    var sel := ObjectFiles(listing[..i], objDir, pf);
    if Matches(listing[i], ObjectWildcard(objDir, pf.Sep()), pf) {
      assert QuotedPieces(sel + [listing[i]]) == QuotedPieces(sel) + [Quoted(listing[i]) + " "];
      ConcatSnoc(QuotedPieces(sel), Quoted(listing[i]) + " ");
    }
  }
}
