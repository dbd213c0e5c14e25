/**
  The parts of Go's `strings` and `unicode` packages the step relies on, over
  strings as sequences of Unicode scalar values: `strings.Index` with a
  one-character separator, `strings.Split`, `strings.Cut` and
  `strings.TrimSpace`.
 */
module GoStrings {
  import opened Wrappers

  /** `unicode.IsSpace`: the Unicode White_Space property. */
  predicate IsSpace(c: char) {
    || ('\t' <= c <= '\r')          // U+0009 .. U+000D: tab, line feed, vertical tab, form feed, carriage return
    || c == ' '
    || c == '\U{85}' || c == '\U{A0}' || c == '\U{1680}'
    || ('\U{2000}' <= c <= '\U{200A}')
    || c == '\U{2028}' || c == '\U{2029}' || c == '\U{202F}' || c == '\U{205F}'
    || c == '\U{3000}'
  }

  predicate AllSpace(s: string) {
    forall k :: 0 <= k < |s| ==> IsSpace(s[k])
  }

  /** Position of the first `c` in `s`; `None` where Go returns -1. */
  function IndexOf(s: string, c: char): (r: Option<nat>)
    ensures r.None? <==> c !in s
    ensures r.Some? ==> r.value < |s| && s[r.value] == c && c !in s[..r.value]
  {
    if |s| == 0 then None
    else if s[0] == c then Some(0)
    else match IndexOf(s[1..], c)
      case None => None
      case Some(i) =>
        assert s[..i + 1] == [s[0]] + s[1..][..i];
        Some(i + 1)
  }

  /** Any position of `c` with no `c` before it is the one `IndexOf` finds. */
  lemma IndexOfFirst(s: string, c: char, i: nat)
    requires i < |s| && s[i] == c && c !in s[..i]
    ensures IndexOf(s, c) == Some(i)
  {
  }

  /** `strings.Split(s, string(sep))`: the pieces between the separators, at least one. */
  function Split(s: string, sep: char): (parts: seq<string>)
    ensures |parts| >= 1
    ensures forall k :: 0 <= k < |parts| ==> sep !in parts[k]
    decreases |s|
  {
    match IndexOf(s, sep)
    case None => [s]
    case Some(i) => [s[..i]] + Split(s[i + 1..], sep)
  }

  /** `strings.Join(parts, string(sep))`, the inverse of `Split`. */
  function Join(parts: seq<string>, sep: char): string {
    if |parts| == 0 then ""
    else if |parts| == 1 then parts[0]
    else parts[0] + [sep] + Join(parts[1..], sep)
  }

  /** Joining the pieces back gives the original string. */
  lemma {:induction false} JoinSplit(s: string, sep: char)
    ensures Join(Split(s, sep), sep) == s
    decreases |s|
  {
    match IndexOf(s, sep)
    case None =>
    case Some(i) =>
      var rest := Split(s[i + 1..], sep);
      JoinSplit(s[i + 1..], sep);
      var parts := [s[..i]] + rest;
      assert parts[0] == s[..i] && parts[1..] == rest;
      calc {
        Join(parts, sep);
        s[..i] + [sep] + Join(rest, sep);
        s[..i] + [sep] + s[i + 1..];
        { assert s == s[..i] + [sep] + s[i + 1..]; }
        s;
      }
  }

  /** Splitting a join of separator-free pieces gives those pieces back. */
  lemma {:induction false} SplitJoin(parts: seq<string>, sep: char)
    requires |parts| >= 1
    requires forall k :: 0 <= k < |parts| ==> sep !in parts[k]
    ensures Split(Join(parts, sep), sep) == parts
  {
    if |parts| > 1 {
      var s := Join(parts, sep);
      var rest := Join(parts[1..], sep);
      assert s == parts[0] + [sep] + rest;
      assert s[|parts[0]|] == sep;
      assert s[..|parts[0]|] == parts[0];
      assert s[|parts[0]| + 1..] == rest;
      SplitJoin(parts[1..], sep);
      assert IndexOf(s, sep) == Some(|parts[0]|);
    }
  }

  /** There is one piece more than there are separators. */
  lemma {:induction false} SplitCount(s: string, sep: char)
    ensures |Split(s, sep)| == multiset(s)[sep] + 1
    decreases |s|
  {
    match IndexOf(s, sep)
    case None =>
    case Some(i) =>
      SplitCount(s[i + 1..], sep);
      assert s == s[..i] + [sep] + s[i + 1..];
      assert multiset(s) == multiset(s[..i]) + multiset{sep} + multiset(s[i + 1..]);
  }

  /** Every character of every piece is a character of the input. */
  lemma {:induction false} SplitChars(s: string, sep: char, k: nat, j: nat)
    requires k < |Split(s, sep)| && j < |Split(s, sep)[k]|
    ensures Split(s, sep)[k][j] in s
    decreases |s|
  {
    match IndexOf(s, sep)
    case None =>
    case Some(i) =>
      if k == 0 {
        assert Split(s, sep)[0] == s[..i];
        assert s[..i][j] == s[j];
      } else {
        SplitChars(s[i + 1..], sep, k - 1, j);
        assert Split(s, sep)[k] == Split(s[i + 1..], sep)[k - 1];
      }
  }

  /** The result of `strings.Cut`: text before the first separator, text after it, and whether there was one. */
  datatype CutResult = CutResult(before: string, after: string, found: bool)

  /** `strings.Cut(s, string(sep))`. */
  function Cut(s: string, sep: char): (r: CutResult)
    ensures r.found <==> sep in s
    ensures sep !in r.before
    ensures r.found ==> s == r.before + [sep] + r.after
    ensures !r.found ==> r.before == s && r.after == ""
  {
    match IndexOf(s, sep)
    case None => CutResult(s, "", false)
    case Some(i) =>
      assert s == s[..i] + [sep] + s[i + 1..];
      CutResult(s[..i], s[i + 1..], true)
  }

  /** Number of white-space characters at the start of `s`. */
  function LeadingSpaces(s: string): (n: nat)
    ensures n <= |s|
    ensures forall k :: 0 <= k < n ==> IsSpace(s[k])
    ensures n < |s| ==> !IsSpace(s[n])
  {
    if |s| > 0 && IsSpace(s[0]) then 1 + LeadingSpaces(s[1..]) else 0
  }

  /** Drops white space from the end of `s`. */
  function TrimRightSpace(s: string): (r: string)
    ensures |r| <= |s| && r == s[..|r|]
    ensures forall k :: |r| <= k < |s| ==> IsSpace(s[k])
    ensures r != "" ==> !IsSpace(r[|r| - 1])
  {
    if |s| > 0 && IsSpace(s[|s| - 1]) then TrimRightSpace(s[..|s| - 1]) else s
  }

  /**
    `strings.TrimSpace`: the substring left after removing the leading and
    trailing white space. It is empty exactly when `s` is all white space.
   */
  function TrimSpace(s: string): (r: string)
    ensures LeadingSpaces(s) + |r| <= |s|
    ensures r == s[LeadingSpaces(s)..LeadingSpaces(s) + |r|]
    ensures forall k :: LeadingSpaces(s) + |r| <= k < |s| ==> IsSpace(s[k])
    ensures r != "" ==> !IsSpace(r[0]) && !IsSpace(r[|r| - 1])
    ensures r == "" <==> AllSpace(s)
  {
    var n := LeadingSpaces(s);
    TrimRightSpace(s[n..])
  }

  /** Leading white space followed by a non-space is counted exactly. */
  lemma {:induction false} LeadingSpacesOf(pre: string, rest: string)
    requires AllSpace(pre)
    requires rest == "" || !IsSpace(rest[0])
    ensures LeadingSpaces(pre + rest) == |pre|
  {
    if pre == [] {
      assert pre + rest == rest;
    } else {
      assert (pre + rest)[0] == pre[0];
      assert (pre + rest)[1..] == pre[1..] + rest;
      LeadingSpacesOf(pre[1..], rest);
    }
  }

  /** Trailing white space after a text that ends in a non-space is dropped exactly. */
  lemma {:induction false} TrimRightSpaceOf(mid: string, post: string)
    requires AllSpace(post)
    requires mid == "" || !IsSpace(mid[|mid| - 1])
    ensures TrimRightSpace(mid + post) == mid
    decreases |post|
  {
    if post == [] {
      assert mid + post == mid;
    } else {
      var t := mid + post;
      assert t[|t| - 1] == post[|post| - 1];
      assert t[..|t| - 1] == mid + post[..|post| - 1];
      TrimRightSpaceOf(mid, post[..|post| - 1]);
    }
  }

  /** TrimSpace removes exactly the white space around the text, and nothing of the text itself. */
  lemma TrimSpaceOf(pre: string, mid: string, post: string)
    requires AllSpace(pre) && AllSpace(post)
    requires mid == "" || (!IsSpace(mid[0]) && !IsSpace(mid[|mid| - 1]))
    ensures TrimSpace(pre + mid + post) == mid
  {
    var s := pre + mid + post;
    assert s == pre + (mid + post);
    if mid == "" {
      assert s == pre + post;
      assert AllSpace(s) by {
        forall k | 0 <= k < |s| ensures IsSpace(s[k]) {
          if k < |pre| { assert s[k] == pre[k]; } else { assert s[k] == post[k - |pre|]; }
        }
      }
    } else {
      assert (mid + post)[0] == mid[0];
      LeadingSpacesOf(pre, mid + post);
      assert s[|pre|..] == mid + post;
      TrimRightSpaceOf(mid, post);
    }
  }

  lemma SplitWithoutSeparator(s: string, sep: char)
    requires sep !in s
    ensures Split(s, sep) == [s]
  {
  }

  /** A string with no white space at either end is its own trim. */
  lemma TrimmedIsUnchanged(s: string)
    requires s == "" || (!IsSpace(s[0]) && !IsSpace(s[|s| - 1]))
    ensures TrimSpace(s) == s
  {
    TrimSpaceOf("", s, "");
    assert "" + s + "" == s;
  }
}
