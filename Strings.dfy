/** String operations shared by the backend and the frontend models:
    Python's `sep.join(parts)` and `s.split(sep)` for a one-character
    separator, the concatenation of a list of pieces, and stripping of
    leading and trailing whitespace, where each language supplies its own
    notion of whitespace. */
module Strings {

  /** The pieces glued together in order, with nothing between them. */
  function Concat(parts: seq<string>): string
  {
    if |parts| == 0 then "" else Concat(parts[..|parts| - 1]) + parts[|parts| - 1]
  }

  /** Sum of the lengths of the pieces. */
  function TotalLength(parts: seq<string>): nat
  {
    if |parts| == 0 then 0 else |parts[0]| + TotalLength(parts[1..])
  }

  /** Python's `sep.join(parts)` for a one-character separator. */
  function Join(sep: char, parts: seq<string>): string
  {
    if |parts| == 0 then ""
    else if |parts| == 1 then parts[0]
    else parts[0] + [sep] + Join(sep, parts[1..])
  }

  /** A join is as long as its pieces plus one separator between each two. */
  lemma {:induction false} JoinLength(sep: char, parts: seq<string>)
    ensures |parts| == 0 ==> Join(sep, parts) == ""
    ensures |parts| > 0 ==> |Join(sep, parts)| == TotalLength(parts) + |parts| - 1
  {
    if |parts| > 1 {
      JoinLength(sep, parts[1..]);
    }
  }

  /** Position of the first occurrence of `c` in `s`. */
  function IndexOf(s: string, c: char): (i: nat)
    requires c in s
    ensures i < |s| && s[i] == c && c !in s[..i]
  {
    if s[0] == c then 0
    else
      assert s == [s[0]] + s[1..];
      var j := IndexOf(s[1..], c);
      assert s[..j + 1] == [s[0]] + s[1..][..j];
      j + 1
  }

  /** Python's `s.split(sep)`: the pieces between occurrences of `sep`. */
  function Split(s: string, sep: char): (pieces: seq<string>)
    ensures |pieces| > 0
    decreases |s|
  {
    if sep !in s then [s]
    else
      var i := IndexOf(s, sep);
      [s[..i]] + Split(s[i + 1..], sep)
  }

  /** The first separator in `a + [c] + b` is the one after `a` when `a`
      holds none. */
  lemma IndexOfAfterPrefix(a: string, c: char, b: string)
    requires c !in a
    ensures c in a + [c] + b && IndexOf(a + [c] + b, c) == |a|
  {
    var s := a + [c] + b;
    assert s[|a|] == c;
  }

  /** Splitting at the first separator, when it follows a separator-free
      prefix. */
  lemma SplitAfterPrefix(a: string, sep: char, b: string)
    requires sep !in a
    ensures Split(a + [sep] + b, sep) == [a] + Split(b, sep)
  {
    var s := a + [sep] + b;
    IndexOfAfterPrefix(a, sep, b);
    assert s[..|a|] == a;
    assert s[|a| + 1..] == b;
  }

  /** Splitting a join gives back the pieces, provided no piece contains
      the separator. */
  lemma {:induction false} SplitJoin(sep: char, parts: seq<string>)
    requires |parts| > 0
    requires forall k :: 0 <= k < |parts| ==> sep !in parts[k]
    ensures Split(Join(sep, parts), sep) == parts
  {
    if |parts| == 1 {
      assert sep !in parts[0];
    } else {
      assert sep !in parts[0];
      SplitAfterPrefix(parts[0], sep, Join(sep, parts[1..]));
      SplitJoin(sep, parts[1..]);
      assert parts == [parts[0]] + parts[1..];
    }
  }

  /** `s` without its leading whitespace. */
  function TrimStart(s: string, isSpace: char -> bool): (r: string)
    ensures |r| <= |s| && r == s[|s| - |r|..]
    ensures forall k :: 0 <= k < |s| - |r| ==> isSpace(s[k])
    ensures r != "" ==> !isSpace(r[0])
    decreases |s|
  {
    if s != "" && isSpace(s[0]) then TrimStart(s[1..], isSpace) else s
  }

  /** `s` without its trailing whitespace. */
  function TrimEnd(s: string, isSpace: char -> bool): (r: string)
    ensures |r| <= |s| && r == s[..|r|]
    ensures forall k :: |r| <= k < |s| ==> isSpace(s[k])
    ensures r != "" ==> !isSpace(r[|r| - 1])
    decreases |s|
  {
    if s != "" && isSpace(s[|s| - 1]) then TrimEnd(s[..|s| - 1], isSpace) else s
  }

  /** `r` is `s` from offset i on, with only whitespace before and after it. */
  predicate StrippedAt(s: string, r: string, i: nat, isSpace: char -> bool)
  {
    && i + |r| <= |s|
    && r == s[i..i + |r|]
    && (forall k :: 0 <= k < i ==> isSpace(s[k]))
    && (forall k :: i + |r| <= k < |s| ==> isSpace(s[k]))
  }

  /** Where the stripped text starts: the length of the whitespace prefix. */
  function StripOffset(s: string, isSpace: char -> bool): nat
  {
    |s| - |TrimStart(s, isSpace)|
  }

  /** `s.strip()` in Python and `s.trim()` in JavaScript, for the given
      notion of whitespace: the result neither starts nor ends with
      whitespace, and it is empty exactly when `s` is all whitespace.
      StripContent says which part of `s` it is. */
  function Strip(s: string, isSpace: char -> bool): (r: string)
    ensures |r| <= |s|
    ensures r != "" ==> !isSpace(r[0]) && !isSpace(r[|r| - 1])
    ensures r == "" <==> forall k :: 0 <= k < |s| ==> isSpace(s[k])
  {
    var t := TrimStart(s, isSpace);
    var r := TrimEnd(t, isSpace);
    assert r != "" ==> r[0] == t[0];
    r
  }

  /** The stripped text is `s` with its whitespace prefix and its
      whitespace suffix removed, and nothing else. */
  lemma StripContent(s: string, isSpace: char -> bool)
    ensures StrippedAt(s, Strip(s, isSpace), StripOffset(s, isSpace), isSpace)
  {
    var t := TrimStart(s, isSpace);
    var r := TrimEnd(t, isSpace);
    var i := |s| - |t|;
    assert Strip(s, isSpace) == r && StripOffset(s, isSpace) == i;
    TrimmedSuffix(s, t, r, i, isSpace);
    assert StrippedAt(s, r, i, isSpace);
  }

  lemma TrimmedSuffix(s: string, t: string, r: string, i: nat, isSpace: char -> bool)
    requires i + |t| == |s| && t == s[i..]
    requires |r| <= |t| && r == t[..|r|]
    requires forall k :: |r| <= k < |t| ==> isSpace(t[k])
    ensures r == s[i..i + |r|]
    ensures forall k :: i + |r| <= k < |s| ==> isSpace(s[k])
  {
    forall k | i + |r| <= k < |s| ensures isSpace(s[k]) {
      assert s[k] == t[k - i];
    }
  }
}
