/** Python string operations the core relies on: substring search (`in`,
    `str.find`), `str.split` with a non-empty separator, and a "text between two
    markers" reading used to parse strings back. */
module Text {
  import opened Wrappers

  /** `pat` occurs in `s` starting at index `i` */
  predicate OccursAt(s: string, pat: string, i: nat) {
    i + |pat| <= |s| && s[i..i + |pat|] == pat
  }

  /** Index of the first occurrence of `pat` in `s` at or after `from` */
  function IndexOfFrom(s: string, pat: string, from: nat): (r: Option<nat>)
    requires from <= |s|
    ensures r.Some? ==> from <= r.value && OccursAt(s, pat, r.value)
    ensures r.Some? ==> forall j :: from <= j < r.value ==> !OccursAt(s, pat, j)
    ensures r.None? ==> forall j :: from <= j ==> !OccursAt(s, pat, j)
    decreases |s| - from
  {
    if from + |pat| > |s| then None
    else if s[from..from + |pat|] == pat then Some(from)
    else IndexOfFrom(s, pat, from + 1)
  }

  /** Python's `s.find(pat)`, with None for -1 */
  function IndexOf(s: string, pat: string): (r: Option<nat>)
    ensures r.Some? ==> OccursAt(s, pat, r.value)
    ensures r.Some? ==> forall j: nat :: j < r.value ==> !OccursAt(s, pat, j)
    ensures r.None? ==> forall j :: !OccursAt(s, pat, j)
  {
    IndexOfFrom(s, pat, 0)
  }

  /** Python's `pat in s` */
  predicate Contains(s: string, pat: string) {
    IndexOf(s, pat).Some?
  }

  /** A pattern placed between two strings occurs where it was placed */
  lemma OccursBetween(a: string, pat: string, b: string)
    ensures OccursAt(a + pat + b, pat, |a|)
    ensures Contains(a + pat + b, pat)
  {
    var s := a + pat + b;
    assert s[|a|..|a| + |pat|] == pat;
    assert IndexOf(s, pat).None? ==> !OccursAt(s, pat, |a|);
  }

  /** A string starts with its own prefix */
  lemma OccursAsPrefix(pat: string, b: string)
    ensures OccursAt(pat + b, pat, 0)
  {
    assert (pat + b)[..|pat|] == pat;
  }

  /** An occurrence with no earlier one is the one IndexOf finds */
  lemma IndexOfIsFirst(s: string, pat: string, i: nat)
    requires OccursAt(s, pat, i)
    requires forall j: nat :: j < i ==> !OccursAt(s, pat, j)
    ensures IndexOf(s, pat) == Some(i)
  {
  }

  /** Containment is the existence of an occurrence */
  lemma ContainsIffOccurs(s: string, pat: string)
    ensures Contains(s, pat) <==> exists i :: OccursAt(s, pat, i)
  {
  }

  /** A single character occurs exactly where the string holds that character */
  lemma OccursAtChar(s: string, c: char, i: nat)
    ensures OccursAt(s, [c], i) <==> i < |s| && s[i] == c
  {
    if i < |s| {
      assert s[i..i + 1] == [s[i]];
    }
  }

  /** A one-character pattern is contained exactly when the character is */
  lemma ContainsChar(s: string, c: char)
    ensures Contains(s, [c]) <==> c in s
  {
    if c in s {
      var i :| 0 <= i < |s| && s[i] == c;
      OccursAtChar(s, c, i);
    } else if Contains(s, [c]) {
      var i := IndexOf(s, [c]).value;
      OccursAtChar(s, c, i);
      assert false;
    }
  }

  /** A pattern one of whose characters is missing from `s` does not occur in it */
  lemma MissingCharNotContained(s: string, pat: string, k: nat)
    requires k < |pat| && pat[k] !in s
    ensures !Contains(s, pat)
  {
    forall i: nat ensures !OccursAt(s, pat, i) {
      if i + |pat| <= |s| {
        assert s[i..i + |pat|][k] == s[i + k];
      }
    }
  }

  /** Occurrences inside a prefix are occurrences in the whole string */
  lemma OccursInPrefix(s: string, pat: string, n: nat, i: nat)
    requires n <= |s|
    ensures OccursAt(s[..n], pat, i) <==> OccursAt(s, pat, i) && i + |pat| <= n
  {
    if i + |pat| <= n {
      assert s[..n][i..i + |pat|] == s[i..i + |pat|];
    }
  }

  /** Occurrences inside a suffix are occurrences in the whole string, shifted */
  lemma OccursInSuffix(s: string, pat: string, n: nat, i: nat)
    requires n <= |s|
    ensures OccursAt(s[n..], pat, i) <==> OccursAt(s, pat, n + i)
  {
    if n + i + |pat| <= |s| {
      assert s[n..][i..i + |pat|] == s[n + i..n + i + |pat|];
    }
  }

  /** When `a` lacks the first character of `pat` and `b` starts with `pat`,
      the first occurrence of `pat` in `a + b` is where `b` begins. */
  lemma IndexOfAfterFreePrefix(a: string, b: string, pat: string)
    requires |pat| > 0 && pat[0] !in a
    requires OccursAt(b, pat, 0)
    ensures IndexOf(a + b, pat) == Some(|a|)
  {
    var s := a + b;
    assert s[|a|..|a| + |pat|] == b[..|pat|];
    forall j: nat | j < |a|
      ensures !OccursAt(s, pat, j)
    {
      assert s[j] == a[j];
      if j + |pat| <= |s| {
        assert s[j..j + |pat|][0] == s[j];
      }
    }
    IndexOfIsFirst(s, pat, |a|);
  }

  /** When `pat`'s last character appears nowhere else in it, an occurrence of
      `pat` cannot overlap the end of a prefix `a` free of `pat`: the first
      occurrence in `a + pat + b` is the inserted one. */
  lemma IndexOfAfterPatternFreePrefix(a: string, pat: string, b: string)
    requires |pat| > 0 && pat[|pat| - 1] !in pat[..|pat| - 1]
    requires !Contains(a, pat)
    ensures IndexOf(a + pat + b, pat) == Some(|a|)
  {
    var s := a + pat + b;
    assert s[|a|..|a| + |pat|] == pat;
    forall j: nat | j < |a|
      ensures !OccursAt(s, pat, j)
    {
      if j + |pat| <= |a| {
        assert s[j..j + |pat|] == a[j..j + |pat|];
        assert !OccursAt(a, pat, j);
      } else {
        var o := j + |pat| - 1 - |a|;
        assert s[j..j + |pat|][|pat| - 1] == s[j + |pat| - 1] == pat[o];
        assert pat[..|pat| - 1][o] == pat[o];
      }
    }
    IndexOfIsFirst(s, pat, |a|);
  }

  /** Python's `s.endswith(suffix)` */
  predicate EndsWith(s: string, suffix: string) {
    |suffix| <= |s| && s[|s| - |suffix|..] == suffix
  }

  /** A string ends with whatever was appended last */
  lemma EndsWithConcat(a: string, b: string)
    ensures EndsWith(a + b, b)
  {
    assert (a + b)[|a|..] == b;
  }

  /** Python's `sep.join(parts)` */
  function Join(parts: seq<string>, sep: string): string
    requires |parts| > 0
  {
    if |parts| == 1 then parts[0] else parts[0] + sep + Join(parts[1..], sep)
  }

  /** Python's `s.split(sep)` for a non-empty separator: the pieces between
      successive non-overlapping occurrences of `sep`, scanning left to right. */
  function Split(s: string, sep: string): (parts: seq<string>)
    requires |sep| > 0
    ensures |parts| >= 1
    ensures Join(parts, sep) == s
    ensures forall k :: 0 <= k < |parts| ==> !Contains(parts[k], sep)
    ensures |parts| == 1 <==> !Contains(s, sep)
    decreases |s|
  {
    match IndexOf(s, sep)
    case None => [s]
    case Some(i) =>
      var rest := Split(s[i + |sep|..], sep);
      SplitHeadFree(s, sep, i);
      assert ([s[..i]] + rest)[1..] == rest;
      [s[..i]] + rest
  }

  /** The text before the first separator contains no separator, and the
      string is that text, the separator and the remainder. */
  lemma SplitHeadFree(s: string, sep: string, i: nat)
    requires |sep| > 0 && IndexOf(s, sep) == Some(i)
    ensures !Contains(s[..i], sep)
    ensures s == s[..i] + sep + s[i + |sep|..]
  {
    forall j: nat ensures !OccursAt(s[..i], sep, j) {
      OccursInPrefix(s, sep, i, j);
    }
  }

  /** The first piece of a split is the text before the first separator, and
      the second piece (when there is one) starts right after it. */
  lemma SplitPieces(s: string, sep: string)
    requires |sep| > 0
    ensures IndexOf(s, sep).None? ==> Split(s, sep) == [s]
    ensures IndexOf(s, sep).Some? ==>
      var i := IndexOf(s, sep).value;
      Split(s, sep)[0] == s[..i] && Split(s, sep)[1] == Split(s[i + |sep|..], sep)[0]
  {
  }

  /** The text before the first occurrence of `sep` (all of `s` if none): what
      `s.split(sep)[0]` yields */
  function Before(s: string, sep: string): (r: string)
    requires |sep| > 0
    ensures r <= s && !Contains(r, sep)
    ensures |r| == |s| || OccursAt(s, sep, |r|)
  {
    Split(s, sep)[0]
  }

  /** The text strictly between the first `open` and the first `close` that
      follows it, or None when either marker is missing */
  function Between(s: string, open: string, close: string): Option<string> {
    match IndexOf(s, open)
    case None => None
    case Some(i) =>
      var rest := s[i + |open|..];
      match IndexOf(rest, close)
      case None => None
      case Some(j) => Some(rest[..j])
  }

  /** A marker whose first character is absent from the text before it is
      found right there, and the text after it is what follows */
  lemma IndexOfMarker(pre: string, marker: string, post: string)
    requires |marker| > 0 && marker[0] !in pre
    ensures IndexOf(pre + marker + post, marker) == Some(|pre|)
    ensures (pre + marker + post)[|pre| + |marker|..] == post
  {
    var s := pre + marker + post;
    assert s == pre + (marker + post);
    assert (marker + post)[..|marker|] == marker;
    IndexOfAfterFreePrefix(pre, marker + post, marker);
  }

  /** Reading back a marked field: if the text before `open` lacks its first
      character and the field lacks the first character of `close`, Between
      returns the field. */
  lemma BetweenOfMarkedField(pre: string, open: string, field: string, close: string, post: string)
    requires |open| > 0 && |close| > 0
    requires open[0] !in pre && close[0] !in field
    ensures Between(pre + open + field + close + post, open, close) == Some(field)
  {
    var s := pre + open + field + close + post;
    var rest := field + close + post;
    assert s == pre + open + rest;
    IndexOfMarker(pre, open, rest);
    IndexOfMarker(field, close, post);
    assert rest[..|field|] == field;
  }
}
