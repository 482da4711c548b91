/**
 * The C string routines the build engine leans on, over Dafny strings:
 * strchr, strrchr and the strtok(" ") tokenizer. A C string is modelled by
 * the sequence of its characters before the terminating NUL.
 */
module Text {

  datatype Option<T> = None | Some(value: T)

  /** strchr(s, c): the first position of c in s, if any; also the linear name lookups. */
  function IndexOf<T(==)>(s: seq<T>, c: T): (r: Option<nat>)
    ensures r.None? <==> c !in s
    ensures r.Some? ==> r.value < |s| && s[r.value] == c && c !in s[..r.value]
  {
    if s == [] then None
    else if s[0] == c then Some(0)
    else match IndexOf(s[1..], c)
      case None => None
      case Some(i) => Some(i + 1)
  }

  /** An occurrence with none before it is the one the search finds. */
  lemma IndexOfFirst<T>(s: seq<T>, c: T, i: nat)
    requires i < |s| && s[i] == c && c !in s[..i]
    ensures IndexOf(s, c) == Some(i)
  {
  }

  /** strrchr(s, c): the last position of c in s, if any. */
  function LastIndexOf(s: string, c: char): (r: Option<nat>)
    ensures r.None? <==> c !in s
    ensures r.Some? ==> r.value < |s| && s[r.value] == c && c !in s[r.value + 1..]
  {
    if s == [] then None
    else if s[|s| - 1] == c then Some(|s| - 1)
    else LastIndexOf(s[..|s| - 1], c)
  }

  /** A last occurrence inside the tail of a + b is found at the same place, shifted by |a|. */
  lemma {:induction false} LastIndexOfAppend(a: string, b: string, c: char)
    requires c in b
    ensures LastIndexOf(a + b, c).Some? && LastIndexOf(b, c).Some?
    ensures LastIndexOf(a + b, c).value == |a| + LastIndexOf(b, c).value
  {
    var i := LastIndexOf(b, c).value;
    assert (a + b)[|a| + i] == c;
    assert (a + b)[|a| + i + 1..] == b[i + 1..];
  }

  /** Length of the leading run of non-space characters of s. */
  function WordEnd(s: string): (n: nat)
    ensures n <= |s| && ' ' !in s[..n]
    ensures n < |s| ==> s[n] == ' '
  {
    if s == [] || s[0] == ' ' then 0
    else
      var m := WordEnd(s[1..]);
      assert s[..m + 1] == [s[0]] + s[1..][..m];
      m + 1
  }

  /**
   * strtok(s, " ") called until it yields NULL: the maximal runs of
   * non-space characters, in order; runs of spaces only separate.
   */
  function Tokens(s: string): (ts: seq<string>)
    decreases |s|
  {
    if s == [] then []
    else if s[0] == ' ' then Tokens(s[1..])
    else
      var n := WordEnd(s);
      [s[..n]] + Tokens(s[n..])
  }

  /** strtok never yields an empty token nor one that holds the delimiter. */
  lemma {:induction false} TokensAreWords(s: string)
    ensures forall t :: t in Tokens(s) ==> t != [] && ' ' !in t
    decreases |s|
  {
    if s == [] {
    } else if s[0] == ' ' {
      TokensAreWords(s[1..]);
    } else {
      TokensAreWords(s[WordEnd(s)..]);
    }
  }

  /** Tokenizing a word followed by a space and more text peels the word off. */
  lemma {:induction false} TokensOfWord(w: string, rest: string)
    requires w != [] && ' ' !in w
    ensures Tokens(w + " " + rest) == [w] + Tokens(rest)
  {
    var s := w + " " + rest;
    WordEndOf(w, rest);
    assert s[..|w|] == w;
    assert s[|w|..] == " " + rest;
    assert (" " + rest)[1..] == rest;
  }

  lemma {:induction false} WordEndOf(w: string, rest: string)
    requires ' ' !in w
    ensures WordEnd(w + " " + rest) == |w|
    decreases |w|
  {
    if w != [] {
      assert (w + " " + rest)[1..] == w[1..] + " " + rest;
      WordEndOf(w[1..], rest);
    }
  }
}
