/**
 * The command-line fragments the build engine splices into its gcc and ar commands:
 * cbrew_create_flags_str, cbrew_create_defines_str, cbrew_create_include_dirs_str and
 * cbrew_create_links_str. Each makes one pass to size a zeroed buffer and a second
 * pass that appends one piece per item at the current end of the buffer.
 */
module Arguments {
  import opened Text
  import opened Paths

  /** The pieces written one after the other. */
  function Concat(pieces: seq<string>): string
  {
    if pieces == [] then "" else Concat(pieces[..|pieces| - 1]) + pieces[|pieces| - 1]
  }

  /** One more piece is written after the others. */
  lemma ConcatSnoc(pieces: seq<string>, p: string)
    ensures Concat(pieces + [p]) == Concat(pieces) + p
  {
    assert (pieces + [p])[..|pieces|] == pieces;
  }

  /** Concatenation splits along any split of the pieces. */
  lemma {:induction false} ConcatAppend(a: seq<string>, b: seq<string>)
    ensures Concat(a + b) == Concat(a) + Concat(b)
    decreases |b|
  {
    if b == [] {
      assert a + b == a;
    } else {
      hide Concat;
      var b' := b[..|b| - 1];
      var x := b[|b| - 1];
      assert a + b == (a + b') + [x];
      assert b == b' + [x];
      ConcatSnoc(a + b', x);
      ConcatSnoc(b', x);
      ConcatAppend(a, b');
    }
  }

  /** The piece written for each item: the prefix, the item and one space ("%s ", "-D%s ", "-I%s "). */
  function Prefixed(prefix: string, items: seq<string>): (pieces: seq<string>)
  {
    seq(|items|, i requires 0 <= i < |items| => prefix + items[i] + " ")
  }

  /** The arguments a command line built from the pieces is meant to carry. */
  function Words(prefix: string, items: seq<string>): seq<string>
  {
    seq(|items|, i requires 0 <= i < |items| => prefix + items[i])
  }

  function FlagsStr(flags: seq<string>): string { Concat(Prefixed("", flags)) }

  function DefinesStr(defines: seq<string>): string { Concat(Prefixed("-D", defines)) }

  /** Include directories become -I options. */
  function IncludeDirsStr(includeDirs: seq<string>): string { Concat(Prefixed("-I", includeDirs)) }

  /**
   * How a link is split: after its last separator is the library name, before it the
   * directory; a link without a separator is looked up in ".".
   */
  function SplitLink(link: string, sep: char): (parts: (string, string))
    ensures sep !in parts.1
    ensures sep in link ==> parts.0 + [sep] + parts.1 == link
    ensures sep !in link ==> parts == (".", link)
  {
    match LastIndexOf(link, sep)
    case None => (".", link)
    case Some(i) =>
      assert link == link[..i] + [sep] + link[i + 1..];
      (link[..i], link[i + 1..])
  }

  /** "-L<dir> -l<name> " for one link. */
  function LinkArg(link: string, sep: char): string
  {
    var (dir, name) := SplitLink(link, sep);
    "-L" + dir + " " + ("-l" + name + " ")
  }

  function LinkPieces(links: seq<string>, sep: char): seq<string>
  {
    seq(|links|, i requires 0 <= i < |links| => LinkArg(links[i], sep))
  }

  function LinksStr(links: seq<string>, sep: char): string { Concat(LinkPieces(links, sep)) }

  /** The size the links buffer is given: strlen("-L. ") + strlen("-l") + strlen(link) + 1 per link. */
  function LinksBufferLength(links: seq<string>): nat
  {
    if links == [] then 0 else LinksBufferLength(links[..|links| - 1]) + |links[|links| - 1]| + 7
  }

  // ---------------------------------------------------------------------------
  // The buffer writes.

  /** One sprintf of a piece at position pos of a buffer whose tail is still zeroed. */
  method WriteAt(buf: array<char>, pos: nat, p: string)
    requires pos + |p| < buf.Length
    requires forall j :: pos <= j < buf.Length ==> buf[j] == '\0'
    modifies buf
    ensures buf[..pos + |p|] == old(buf[..pos]) + p
    ensures forall j :: pos + |p| <= j < buf.Length ==> buf[j] == '\0'
  {
    for k := 0 to |p|
      invariant buf[..pos + k] == old(buf[..pos]) + p[..k]
      invariant forall j :: pos + k <= j < buf.Length ==> buf[j] == '\0'
    {
      buf[pos + k] := p[k];
      assert p[..k + 1] == p[..k] + [p[k]];
    }
    assert p[..|p|] == p;
  }

  /**
   * calloc(len + 1) followed by one sprintf per piece at strlen of the buffer: the
   * zeroed tail makes strlen the end of what was written so far.
   */
  method Render(pieces: seq<string>, len: nat) returns (s: string)
    requires |Concat(pieces)| <= len
    ensures s == Concat(pieces)
  {
    assert pieces[..0] == [];
    hide Concat;
    var buf := new char[len + 1](_ => '\0');
    var pos := 0;
    for i := 0 to |pieces|
      invariant pos == |Concat(pieces[..i])| <= len
      invariant buf[..pos] == Concat(pieces[..i])
      invariant forall j :: pos <= j < buf.Length ==> buf[j] == '\0'
    {
      var p := pieces[i];
      assert pieces[..i + 1] == pieces[..i] + [p];
      ConcatSnoc(pieces[..i], p);
      ConcatAppend(pieces[..i + 1], pieces[i + 1..]);
      assert pieces[..i + 1] + pieces[i + 1..] == pieces;
      WriteAt(buf, pos, p);
      pos := pos + |p|;
    }
    assert pieces[..|pieces|] == pieces;
    s := buf[..pos];
  }

  /** The shared shape of the flags, defines and include-dirs builders. */
  method CreatePrefixedStr(prefix: string, items: seq<string>) returns (s: string)
    ensures s == Concat(Prefixed(prefix, items))
  {
    if |items| == 0 {
      return "";
    }
    var len := 0;
    for i := 0 to |items|
      invariant len == |Concat(Prefixed(prefix, items[..i]))|
    {
      assert Prefixed(prefix, items[..i + 1]) == Prefixed(prefix, items[..i]) + [prefix + items[i] + " "];
      ConcatAppend(Prefixed(prefix, items[..i]), [prefix + items[i] + " "]);
      len := len + |prefix| + |items[i]| + 1;
    }
    assert items[..|items|] == items;
    s := Render(Prefixed(prefix, items), len);
  }

  /** cbrew_create_flags_str */
  method CreateFlagsStr(flags: seq<string>) returns (s: string)
    ensures s == FlagsStr(flags)
  {
    s := CreatePrefixedStr("", flags);
  }

  /** cbrew_create_defines_str */
  method CreateDefinesStr(defines: seq<string>) returns (s: string)
    ensures s == DefinesStr(defines)
  {
    s := CreatePrefixedStr("-D", defines);
  }

  /** cbrew_create_include_dirs_str */
  method CreateIncludeDirsStr(includeDirs: seq<string>) returns (s: string)
    ensures s == IncludeDirsStr(includeDirs)
  {
    s := CreatePrefixedStr("-I", includeDirs);
  }

  /** cbrew_create_links_str: the buffer is sized with the no-separator length, which is the larger one. */
  method CreateLinksStr(links: seq<string>, sep: char) returns (s: string)
    ensures s == LinksStr(links, sep)
  {
    if |links| == 0 {
      return "";
    }
    var len := 0;
    for i := 0 to |links|
      invariant len == LinksBufferLength(links[..i])
    {
      assert links[..i + 1][..i] == links[..i];
      len := len + |"-L. "| + |"-l"| + |links[i]| + |" "|;
    }
    assert links[..|links|] == links;
    LinksFit(links, sep);
    s := Render(LinkPieces(links, sep), len);
  }

  // ---------------------------------------------------------------------------
  // What the strings carry.

  /** One link's piece is two characters shorter when the link names a directory. */
  lemma LinkArgLength(link: string, sep: char)
    ensures |LinkArg(link, sep)| == if sep in link then |link| + 5 else |link| + 7
  {
  }

  /** The buffer cbrew_create_links_str allocates always holds what it writes. */
  lemma {:induction false} LinksFit(links: seq<string>, sep: char)
    ensures |LinksStr(links, sep)| <= LinksBufferLength(links)
    decreases |links|
  {
    if links != [] {
      var init := links[..|links| - 1];
      var last := links[|links| - 1];
      assert LinkPieces(links, sep) == LinkPieces(init, sep) + [LinkArg(last, sep)];
      ConcatAppend(LinkPieces(init, sep), [LinkArg(last, sep)]);
      LinkArgLength(last, sep);
      LinksFit(init, sep);
    }
  }

  /**
   * Split on spaces, as the shell does with the command line, the string carries one
   * argument per item, in order, provided no item is empty or holds a space.
   */
  lemma {:induction false} PrefixedTokens(prefix: string, items: seq<string>)
    requires ' ' !in prefix
    requires forall i :: 0 <= i < |items| ==> ' ' !in items[i] && prefix + items[i] != []
    ensures Tokens(Concat(Prefixed(prefix, items))) == Words(prefix, items)
    decreases |items|
  {
    if items == [] {
    } else {
      var w := prefix + items[0];
      assert ' ' !in w && w != [] by {
        assert ' ' !in items[0];
      }
      PrefixedCons(prefix, items);
      hide Concat, Prefixed, Words, Tokens;
      TokensOfWord(w, Concat(Prefixed(prefix, items[1..])));
      PrefixedTokens(prefix, items[1..]);
    }
  }

  /** The first item's piece comes first, and its argument first. */
  lemma PrefixedCons(prefix: string, items: seq<string>)
    requires items != []
    ensures Concat(Prefixed(prefix, items)) == prefix + items[0] + " " + Concat(Prefixed(prefix, items[1..]))
    ensures Words(prefix, items) == [prefix + items[0]] + Words(prefix, items[1..])
  {
    var w := prefix + items[0];
    var rest := Prefixed(prefix, items[1..]);
    assert Prefixed(prefix, items) == [w + " "] + rest;
    assert Concat([w + " "]) == w + " " by {
      ConcatSnoc([], w + " ");
      assert [] + [w + " "] == [w + " "];
    }
    ConcatAppend([w + " "], rest);
  }

  /** A link without spaces reaches gcc as "-L<dir>" and "-l<name>", and dir, sep, name rebuild it. */
  lemma LinkArgTokens(link: string, sep: char)
    requires ' ' !in link && sep != ' '
    ensures var (dir, name) := SplitLink(link, sep);
      Tokens(LinkArg(link, sep)) == ["-L" + dir, "-l" + name]
  {
    var (dir, name) := SplitLink(link, sep);
    assert ' ' !in dir && ' ' !in name by {
      if sep in link {
        assert link == dir + [sep] + name;
        assert forall c :: c in dir ==> c in link;
        assert forall c :: c in name ==> c in link;
      }
    }
    TokensOfWord("-L" + dir, "-l" + name + " ");
    TokensOfWord("-l" + name, "");
    assert "-l" + name + " " + "" == "-l" + name + " ";
    assert Tokens("-l" + name + " ") == ["-l" + name];
    assert LinkArg(link, sep) == "-L" + dir + " " + ("-l" + name + " ");
  }
}
