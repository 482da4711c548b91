/**
 * cbrew_file_matches_wildcard: a recursive backtracking matcher over '?', '*', '**'
 * and '[...]'. Both strings are normalised with cbrew_path on entry; every recursive
 * call of the C function normalises again, which on already normalised strings is the
 * identity (Paths.PathIdempotent), so MatchFrom recurses on the normalised strings.
 *
 * MatchFromAsWritten is the code as written, where '?' facing an exhausted path reads
 * past the terminator (undefined behaviour); MatchFrom is the corrected matcher in
 * which that '?' fails, and is the one the rest of the model uses.
 */
module Wildcard {
  import opened Text
  import opened Paths

  /** Outcome of the code as written: a verdict, or undefined behaviour. */
  datatype Outcome = Matched | Unmatched | Undefined

  /** isalnum in the C locale. */
  predicate IsAlnum(c: char)
  {
    ('0' <= c <= '9') || ('a' <= c <= 'z') || ('A' <= c <= 'Z')
  }

  /**
   * Position j of a bracket body accepts ch: a '-' that is neither first nor last and
   * sits between two alphanumerics is a range, any other character stands for itself.
   */
  predicate Hits(body: string, j: nat, ch: char)
    requires j < |body|
  {
    if body[j] == '-' && 0 < j < |body| - 1 && IsAlnum(body[j - 1]) && IsAlnum(body[j + 1])
    then body[j - 1] <= ch <= body[j + 1]
    else body[j] == ch
  }

  /** The class loop: some position of the body accepts ch. */
  predicate InClass(body: string, ch: char)
  {
    exists j :: 0 <= j < |body| && Hits(body, j, ch)
  }

  /** The matcher as written. */
  function MatchFromAsWritten(fp: string, wc: string, sep: char): Outcome
    decreases |fp| + |wc|, 1, 0
  {
    if wc == [] && fp == [] then Matched
    else if |wc| > 1 && wc[0] == '*' && fp == [] then Unmatched
    else if wc != [] && wc[0] == '?' && fp == [] then Undefined
    else if wc != [] && fp != [] && (wc[0] == '?' || wc[0] == fp[0]) then
      MatchFromAsWritten(fp[1..], wc[1..], sep)
    else if wc != [] && wc[0] == '[' then
      (match IndexOf(wc, ']')
       case None => Unmatched
       case Some(e) =>
         if fp != [] && InClass(wc[1..e], fp[0]) then MatchFromAsWritten(wc[e + 1..], fp[1..], sep)
         else Unmatched)
    else if |wc| >= 2 && wc[0] == '*' && wc[1] == '*' then
      if wc[2..] == [] then Matched else SomeSuffixAsWritten(fp, wc[2..], sep, 0)
    else if wc != [] && wc[0] == '*' then
      if wc[1..] == [] then (if sep in fp then Unmatched else Matched)
      else SomeSuffixAsWritten(fp, wc[1..], sep, 0)
    else Unmatched
  }

  /** The split-point loop as written: the first defined verdict that is not a miss wins. */
  function SomeSuffixAsWritten(fp: string, rest: string, sep: char, i: nat): Outcome
    requires i <= |fp|
    decreases |fp| + |rest| + 1, 0, |fp| - i
  {
    if i == |fp| then Unmatched
    else
      match MatchFromAsWritten(fp[i..], rest, sep)
      case Unmatched => SomeSuffixAsWritten(fp, rest, sep, i + 1)
      case r => r
  }

  /** The corrected matcher: identical except that '?' facing an exhausted path fails. */
  function MatchFrom(fp: string, wc: string, sep: char): bool
    decreases |fp| + |wc|, 1, 0
  {
    if wc == [] && fp == [] then true
    else if |wc| > 1 && wc[0] == '*' && fp == [] then false
    else if wc != [] && wc[0] == '?' && fp == [] then false
    else if wc != [] && fp != [] && (wc[0] == '?' || wc[0] == fp[0]) then
      MatchFrom(fp[1..], wc[1..], sep)
    else if wc != [] && wc[0] == '[' then
      (match IndexOf(wc, ']')
       case None => false
       case Some(e) => fp != [] && InClass(wc[1..e], fp[0]) && MatchFrom(wc[e + 1..], fp[1..], sep))
    else if |wc| >= 2 && wc[0] == '*' && wc[1] == '*' then
      wc[2..] == [] || SomeSuffix(fp, wc[2..], sep, 0)
    else if wc != [] && wc[0] == '*' then
      if wc[1..] == [] then sep !in fp else SomeSuffix(fp, wc[1..], sep, 0)
    else false
  }

  /** The split-point loop: `for i < strlen(fp)`, so the empty suffix is never tried. */
  function SomeSuffix(fp: string, rest: string, sep: char, i: nat): bool
    requires i <= |fp|
    decreases |fp| + |rest| + 1, 0, |fp| - i
  {
    i < |fp| && (MatchFrom(fp[i..], rest, sep) || SomeSuffix(fp, rest, sep, i + 1))
  }

  /** cbrew_file_matches_wildcard: normalise both strings, then match. */
  function Matches(filepath: string, wildcard: string, pf: Platform): bool
  {
    MatchFrom(Path(filepath, pf.Sep()), Path(wildcard, pf.Sep()), pf.Sep())
  }

  /** The code as written, at the entry point. */
  function MatchesAsWritten(filepath: string, wildcard: string, pf: Platform): Outcome
  {
    MatchFromAsWritten(Path(filepath, pf.Sep()), Path(wildcard, pf.Sep()), pf.Sep())
  }

  // ---------------------------------------------------------------------------
  // The finding: the corrected matcher agrees with the code wherever the code is
  // defined, and the code is undefined on a '?' that outruns the path.

  /** Wherever the code as written has defined behaviour, the corrected matcher gives its verdict. */
  lemma {:induction false} AsWrittenAgrees(fp: string, wc: string, sep: char)
    requires MatchFromAsWritten(fp, wc, sep) != Undefined
    ensures MatchFrom(fp, wc, sep) <==> MatchFromAsWritten(fp, wc, sep) == Matched
    decreases |fp| + |wc|, 1, 0
  {
    if wc == [] && fp == [] {
    } else if |wc| > 1 && wc[0] == '*' && fp == [] {
    } else if wc != [] && wc[0] == '?' && fp == [] {
    } else if wc != [] && fp != [] && (wc[0] == '?' || wc[0] == fp[0]) {
      AsWrittenAgrees(fp[1..], wc[1..], sep);
    } else if wc != [] && wc[0] == '[' {
      match IndexOf(wc, ']')
      case None =>
      case Some(e) =>
        if fp != [] && InClass(wc[1..e], fp[0]) {
          AsWrittenAgrees(wc[e + 1..], fp[1..], sep);
        }
    } else if |wc| >= 2 && wc[0] == '*' && wc[1] == '*' {
      if wc[2..] != [] {
        SuffixAgrees(fp, wc[2..], sep, 0);
      }
    } else if wc != [] && wc[0] == '*' {
      if wc[1..] != [] {
        SuffixAgrees(fp, wc[1..], sep, 0);
      }
    }
  }

  lemma {:induction false} SuffixAgrees(fp: string, rest: string, sep: char, i: nat)
    requires i <= |fp|
    requires SomeSuffixAsWritten(fp, rest, sep, i) != Undefined
    ensures SomeSuffix(fp, rest, sep, i) <==> SomeSuffixAsWritten(fp, rest, sep, i) == Matched
    decreases |fp| + |rest| + 1, 0, |fp| - i
  {
    if i < |fp| {
      AsWrittenAgrees(fp[i..], rest, sep);
      if MatchFromAsWritten(fp[i..], rest, sep) == Unmatched {
        SuffixAgrees(fp, rest, sep, i + 1);
      }
    }
  }

  /** The input that exposes the undefined read: "a" against "a?". */
  lemma QuestionMarkPastEnd(sep: char)
    ensures MatchFromAsWritten("a", "a?", sep) == Undefined
    ensures !MatchFrom("a", "a?", sep)
  {
    assert "a"[1..] == [] && "a?"[1..] == "?";
  }

  // ---------------------------------------------------------------------------
  // Literal patterns.

  /** A string without '?', '*' or '['. */
  predicate Plain(s: string)
  {
    forall j :: 0 <= j < |s| ==> !IsMeta(s[j])
  }

  /** A pattern without wildcard characters matches exactly the path equal to it. */
  lemma {:induction false} PlainPattern(fp: string, wc: string, sep: char)
    requires Plain(wc)
    ensures MatchFrom(fp, wc, sep) <==> fp == wc
    decreases |wc|
  {
    if wc != [] {
      assert !IsMeta(wc[0]);
      if fp != [] && wc[0] == fp[0] {
        PlainPattern(fp[1..], wc[1..], sep);
        assert fp == [fp[0]] + fp[1..] && wc == [wc[0]] + wc[1..];
      } else {
        assert fp == [] || fp[0] != wc[0];
      }
    }
  }

  /**
   * At the entry point: a wildcard with no '?', '*' or '[' matches exactly the paths
   * that equal it once both are normalised.
   */
  lemma PlainWildcard(filepath: string, wildcard: string, pf: Platform)
    requires Plain(wildcard)
    ensures Matches(filepath, wildcard, pf) <==> Path(filepath, pf.Sep()) == Path(wildcard, pf.Sep())
  {
    var w := Path(wildcard, pf.Sep());
    assert Plain(w) by {
      forall j | 0 <= j < |w| ensures !IsMeta(w[j]) {
        assert !IsMeta(wildcard[j]);
      }
    }
    PlainPattern(Path(filepath, pf.Sep()), w, pf.Sep());
  }

  /** The empty wildcard matches only the empty path. */
  lemma EmptyWildcard(filepath: string, pf: Platform)
    ensures Matches(filepath, "", pf) <==> filepath == ""
  {
    PlainWildcard(filepath, "", pf);
  }

  /** Literal equality comes first: a shared prefix is consumed whatever it contains. */
  lemma {:induction false} SharedPrefix(p: string, fp: string, wc: string, sep: char)
    ensures MatchFrom(p + fp, p + wc, sep) <==> MatchFrom(fp, wc, sep)
    decreases |p|
  {
    if p != [] {
      assert (p + fp)[1..] == p[1..] + fp && (p + wc)[1..] == p[1..] + wc;
      assert (p + fp)[0] == p[0] == (p + wc)[0];
      assert MatchFrom(p + fp, p + wc, sep) == MatchFrom(p[1..] + fp, p[1..] + wc, sep);
      SharedPrefix(p[1..], fp, wc, sep);
    } else {
      assert p + fp == fp && p + wc == wc;
    }
  }

  // ---------------------------------------------------------------------------
  // Stars.

  /** The split-point loop succeeds iff some suffix starting at i..|fp|-1 matches. */
  lemma {:induction false} SomeSuffixExists(fp: string, rest: string, sep: char, i: nat)
    requires i <= |fp|
    ensures SomeSuffix(fp, rest, sep, i) <==> exists j :: i <= j < |fp| && MatchFrom(fp[j..], rest, sep)
    decreases |fp| - i
  {
    if i < |fp| {
      SomeSuffixExists(fp, rest, sep, i + 1);
    }
  }

  /** A final single '*' matches the remainder iff it holds no separator (the empty one too). */
  lemma FinalStar(fp: string, sep: char)
    requires fp == [] || fp[0] != '*'
    ensures MatchFrom(fp, "*", sep) <==> sep !in fp
  {
  }

  /** A final '**' matches any non-empty remainder, and never the empty one. */
  lemma FinalDoubleStar(fp: string, sep: char)
    requires fp == [] || fp[0] != '*'
    ensures MatchFrom(fp, "**", sep) <==> fp != []
  {
  }

  /** A star followed by more pattern never matches an exhausted path. */
  lemma StarNeedsInput(rest: string, sep: char)
    requires rest != []
    ensures !MatchFrom("", "*" + rest, sep)
    ensures !MatchFrom("", "**" + rest, sep)
  {
  }

  /**
   * A non-final single '*' succeeds iff the rest of the pattern matches the suffix at
   * some offset 0..|fp|-1; nothing stops that suffix from lying past a separator.
   */
  lemma InnerStar(fp: string, rest: string, sep: char)
    requires fp != [] && fp[0] != '*'
    requires rest != [] && rest[0] != '*'
    ensures MatchFrom(fp, "*" + rest, sep) <==> exists j :: 0 <= j < |fp| && MatchFrom(fp[j..], rest, sep)
  {
    assert ("*" + rest)[1..] == rest;
    SomeSuffixExists(fp, rest, sep, 0);
  }

  /** A non-final '**' succeeds iff the rest matches the suffix at some offset 0..|fp|-1. */
  lemma InnerDoubleStar(fp: string, rest: string, sep: char)
    requires fp != [] && fp[0] != '*'
    requires rest != []
    ensures MatchFrom(fp, "**" + rest, sep) <==> exists j :: 0 <= j < |fp| && MatchFrom(fp[j..], rest, sep)
  {
    assert ("**" + rest)[2..] == rest;
    SomeSuffixExists(fp, rest, sep, 0);
  }

  /** Literal-first: a path "*x" is not matched by the pattern "*" although it has no separator. */
  lemma StarTakenLiterally(sep: char)
    requires sep != 'x' && sep != '*'
    ensures sep !in "*x" && !MatchFrom("*x", "*", sep)
  {
    assert "*x"[1..] == "x" && "*"[1..] == "";
  }

  // ---------------------------------------------------------------------------
  // Classes.

  /** A '[' with no later ']' fails, unless the path holds a literal '[' at that point. */
  lemma UnclosedClass(fp: string, wc: string, sep: char)
    requires wc != [] && wc[0] == '[' && ']' !in wc
    requires fp == [] || fp[0] != '['
    ensures !MatchFrom(fp, wc, sep)
  {
  }

  /**
   * A closed class consumes one path character when it is a member, and then the rest
   * of the path is matched AGAINST the rest of the pattern: the recursive call takes
   * its arguments swapped.
   */
  lemma ClassThenSwapped(fp: string, wc: string, sep: char)
    requires wc != [] && wc[0] == '[' && ']' in wc
    requires fp == [] || fp[0] != '['
    ensures var e := IndexOf(wc, ']').value;
      MatchFrom(fp, wc, sep) <==> fp != [] && InClass(wc[1..e], fp[0]) && MatchFrom(wc[e + 1..], fp[1..], sep)
  {
  }

  /** "[a-c]" accepts "b" and refuses "d". */
  lemma RangeExamples(sep: char)
    ensures MatchFrom("b", "[a-c]", sep)
    ensures !MatchFrom("d", "[a-c]", sep)
  {
    hide IndexOf;
    ClosingBracketAt("[a-c]", 4);
    assert "[a-c]"[1..4] == "a-c";
    assert Hits("a-c", 1, 'b');
    assert "[a-c]"[5..] == [] && "b"[1..] == [];
    assert forall j :: 0 <= j < 3 ==> !Hits("a-c", j, 'd');
  }

  /** A class with a further wildcard after it: "b.c" is refused by "[ab]*.c" because of the swap. */
  lemma ClassSwapExample(sep: char)
    requires sep != '.' && sep != 'c'
    ensures MatchFrom("b.c", "[ab].c", sep)
    ensures !MatchFrom("b.c", "[ab]*.c", sep)
  {
    hide IndexOf, MatchFrom, SomeSuffix;
    LiteralMismatch("*.c", ".c", sep);
    ClosingBracketAt("[ab].c", 3);
    ClosingBracketAt("[ab]*.c", 3);
    assert "[ab].c"[1..3] == "ab" && "[ab]*.c"[1..3] == "ab";
    assert Hits("ab", 1, 'b');
    assert "[ab].c"[4..] == ".c" && "[ab]*.c"[4..] == "*.c" && "b.c"[1..] == ".c";
    PlainPattern(".c", ".c", sep);
    ClassThenSwapped("b.c", "[ab].c", sep);
    ClassThenSwapped("b.c", "[ab]*.c", sep);
  }

  /** A literal pattern character that differs from the path character fails the match. */
  lemma LiteralMismatch(fp: string, wc: string, sep: char)
    requires wc != [] && !IsMeta(wc[0])
    requires fp == [] || fp[0] != wc[0]
    ensures !MatchFrom(fp, wc, sep)
  {
  }

  /** The first ']' of a pattern, located without unfolding the search. */
  lemma ClosingBracketAt(wc: string, e: nat)
    requires e < |wc| && wc[e] == ']' && forall j :: 0 <= j < e ==> wc[j] != ']'
    ensures IndexOf(wc, ']') == Some(e)
  {
    hide IndexOf;
  }

  // ---------------------------------------------------------------------------
  // Worked examples on Linux paths.

  // "src/a.c" and, because a non-final star crosses separators, "src/sub/a.c" match "src/" + "*.c".
  lemma StarExamples()
    ensures MatchFrom("src/a.c", "src/*.c", '/')
    ensures MatchFrom("src/sub/a.c", "src/*.c", '/')
  {
    hide IndexOf, MatchFrom, SomeSuffix;
    assert "*" + ".c" == "*.c";
    SharedPrefix("src/", "a.c", "*.c", '/');
    assert "src/" + "a.c" == "src/a.c" && "src/" + "*.c" == "src/*.c";
    InnerStar("a.c", ".c", '/');
    assert "a.c"[1..] == ".c";
    PlainPattern(".c", ".c", '/');
    SharedPrefix("src/", "sub/a.c", "*.c", '/');
    assert "src/" + "sub/a.c" == "src/sub/a.c";
    InnerStar("sub/a.c", ".c", '/');
    assert "sub/a.c"[5..] == ".c";
  }

  /** "**" crosses directories. */
  lemma DoubleStarExample()
    ensures MatchFrom("src/sub/a.c", "src/**/a.c", '/')
  {
    hide IndexOf, MatchFrom, SomeSuffix;
    PlainPattern("/a.c", "/a.c", '/');
    assert "sub/a.c"[3..] == "/a.c";
    InnerDoubleStar("sub/a.c", "/a.c", '/');
    assert "**" + "/a.c" == "**/a.c";
    SharedPrefix("src/", "sub/a.c", "**/a.c", '/');
    assert "src/" + "sub/a.c" == "src/sub/a.c" && "src/" + "**/a.c" == "src/**/a.c";
  }

  /** '?' takes any one character. */
  lemma QuestionExample()
    ensures MatchFrom("abc", "a?c", '/')
  {
    hide IndexOf;
    PlainPattern("c", "c", '/');
    assert MatchFrom("bc", "?c", '/') by {
      assert "bc"[1..] == "c" && "?c"[1..] == "c";
    }
    SharedPrefix("a", "bc", "?c", '/');
    assert "a" + "bc" == "abc" && "a" + "?c" == "a?c";
  }
}
